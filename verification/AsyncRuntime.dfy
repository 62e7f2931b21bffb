/**
 The asynchronous emulation of a synchronous inference runtime.

 A client thread sends command records over a request channel to a worker
 thread, which calls the runtime module and sends the same record back over a
 reply channel.  Invoke is fire-and-forget: its record travels on to an output
 queue, from which GetOutput takes and frees it, and an event is published.

 The two threads are modelled as a state machine: `Step` is one atomic step of
 one thread, a step that is not enabled changes nothing, and `Run` performs an
 arbitrary schedule.  A theorem about `Run(mod, schedule)` for every `schedule`
 is therefore a theorem about every interleaving.
 */
module AsyncRuntime {
  import opened Prelude

  // An address; records live in `State.heap` under theirs.
  type Ptr = int

  datatype Op =
    | Configure | LoadModel
    | GetInputTensorInfo | GetOutputTensorInfo
    | SetInputTensorInfo | SetOutputTensorInfo
    | AllocateTensor | FreeTensor
    | Prepare | Invoke | Stop
    | GetOutput

  const ID_LAST := 0x0B

  function Id(op: Op): (id: int)
    ensures (0 <= id < ID_LAST) <==> op != GetOutput
  {
    match op
    case Configure => 0x00
    case LoadModel => 0x01
    case GetInputTensorInfo => 0x02
    case GetOutputTensorInfo => 0x03
    case SetInputTensorInfo => 0x04
    case SetOutputTensorInfo => 0x05
    case AllocateTensor => 0x06
    case FreeTensor => 0x07
    case Prepare => 0x08
    case Invoke => 0x09
    case Stop => 0x0A
    case GetOutput => 0x0C
  }

  /** The worker's command table: the handler stored at an index. */
  const COMMAND_TABLE: seq<Op> := [
    Configure, LoadModel, GetInputTensorInfo, GetOutputTensorInfo, SetInputTensorInfo, SetOutputTensorInfo,
    AllocateTensor, FreeTensor, Prepare, Invoke, Stop
  ]

  datatype Args =
    | Nothing
    | Pointer(ptr: Ptr)
    | TensorInfo(info: Ptr, size: int)
    | Tensor(tensor: Ptr, size: int, context: Ptr)

  datatype Ret = Value(value: int) | Object(value: int, obj: Ptr)

  /** A command record; `birth` is bookkeeping, the number of the client call that created it. */
  datatype Rec = Rec(args: Args, ret: Ret, birth: nat)

  /** A pointer and a size that are passed by reference. */
  datatype Vars = Vars(ptr: Ptr, size: int)

  const NULL_VARS := Vars(0, 0)

  /**
   A client call; `out` is what its reference parameters hold, for an Invoke those its output is to be collected
   into.
   */
  datatype Call = Call(op: Op, args: Args, out: Vars)

  predicate WellTyped(c: Call) {
    match c.op
    case Invoke => c.args.Tensor?
    case FreeTensor => c.args.Tensor? && c.args.tensor == c.out.ptr
    case GetOutput => false
    case Configure => c.args.Pointer?
    case LoadModel => c.args.Pointer?
    case Prepare => c.args.Pointer?
    case Stop => c.args.Pointer?
    case GetInputTensorInfo => c.args == TensorInfo(c.out.ptr, c.out.size)
    case GetOutputTensorInfo => c.args == TensorInfo(c.out.ptr, c.out.size)
    case _ => c.args.TensorInfo?
  }

  // ---------- The runtime module ----------

  /** A call the module receives: its arguments, and what the parameters it may write hold when it is made. */
  datatype ModuleCall = ModuleCall(op: Op, args: Args, incoming: Vars)

  /** What the module returns, and what it writes through its reference parameters, if it does. */
  datatype Reply = Reply(value: int, ptr: Option<Ptr>, size: Option<int>)

  /**
   The module is any function from the calls made to it so far, the current one last, to the reply to that one.
   `stack` is what the worker's stack happens to hold at the n-th of them, where a handler leaves its variables
   uninitialised.
   */
  datatype Module = Module(reply: seq<ModuleCall> -> Reply, stack: nat -> Vars)

  /** The arguments that are not there to be written only. */
  function Inputs(op: Op, args: Args): Args {
    if op.GetInputTensorInfo? || op.GetOutputTensorInfo? || op.GetOutput? then Nothing else args
  }

  /** What the parameters that the module may write hold when a handler calls it. */
  function Initial(op: Op, args: Args, stack: Vars): Vars {
    match op
    case GetInputTensorInfo => NULL_VARS
    case GetOutputTensorInfo => stack
    case AllocateTensor => NULL_VARS
    case FreeTensor => if args.Tensor? then Vars(args.tensor, 0) else NULL_VARS
    case GetOutput => if args.Tensor? then Vars(args.tensor, args.size) else NULL_VARS
    case _ => NULL_VARS
  }

  /** The call that a handler makes as the `n`-th one. */
  function HandlerCall(mod: Module, op: Op, args: Args, n: nat): ModuleCall {
    ModuleCall(op, Inputs(op, args), Initial(op, args, mod.stack(n)))
  }

  /** What a reference parameter's variable holds after a call. */
  function Written(before: Vars, r: Reply): Vars {
    Vars(r.ptr.GetOr(before.ptr), r.size.GetOr(before.size))
  }

  /** The module calls that the handlers make for one client call, the first of them the `n`-th. */
  function ModuleCalls(mod: Module, c: Call, n: nat): seq<ModuleCall> {
    [HandlerCall(mod, c.op, c.args, n)] + if c.op.Invoke? then [HandlerCall(mod, GetOutput, c.args, n + 1)] else []
  }

  /** The module calls that the handlers make for the first `n` client calls. */
  function Received(mod: Module, calls: seq<Call>, n: nat): seq<ModuleCall>
    requires n <= |calls|
  {
    if n == 0 then [] else
    var before := Received(mod, calls, n - 1);
    before + ModuleCalls(mod, calls[n - 1], |before|)
  }

  /** The module call that client call `k` leads to; an Invoke leads to a GetOutput after it. */
  function FirstCall(mod: Module, calls: seq<Call>, k: nat): ModuleCall
    requires k < |calls|
  {
    HandlerCall(mod, calls[k].op, calls[k].args, |Received(mod, calls, k)|)
  }

  function ReplyTo(mod: Module, calls: seq<Call>, k: nat): Reply
    requires k < |calls|
  {
    mod.reply(Received(mod, calls, k) + [FirstCall(mod, calls, k)])
  }

  /** What a caller gets: the returned value, and what its reference parameters hold then. */
  datatype Seen = Seen(value: int, vars: Vars)

  // ---------- The handlers ----------

  /**
   The record after a handler other than Invoke's has run; `initial` is what its variables held before the module
   call.
   */
  function Fill(op: Op, rec: Rec, initial: Vars, r: Reply): Rec {
    var v := Written(initial, r);
    match op
    case GetInputTensorInfo => rec.(args := TensorInfo(v.ptr, v.size), ret := Value(r.value))
    case GetOutputTensorInfo => rec.(args := TensorInfo(v.ptr, v.size), ret := Value(r.value))
    case AllocateTensor => rec.(ret := Object(r.value, v.ptr))
    case FreeTensor => if rec.args.Tensor? then rec.(args := rec.args.(tensor := v.ptr), ret := Value(0)) else rec
    case _ => rec.(ret := Value(r.value))
  }

  /** An Invoke's record after the module's GetOutput has been given its tensor and size to write. */
  function FillOutput(rec: Rec, r: Reply): Rec
    requires rec.args.Tensor?
  {
    var v := Written(Vars(rec.args.tensor, rec.args.size), r);
    rec.(args := Tensor(v.ptr, v.size, rec.args.context))
  }

  /** What the client side of a call takes out of the record that came back; `out` is what its variables held before. */
  function Extract(op: Op, out: Vars, rec: Rec): Seen {
    match op
    case GetInputTensorInfo => ExtractInfo(out, rec)
    case GetOutputTensorInfo => ExtractInfo(out, rec)
    case AllocateTensor =>
      Seen(rec.ret.value, if rec.ret.value < 0 || !rec.ret.Object? then out else out.(ptr := rec.ret.obj))
    case FreeTensor => Seen(0, out)
    case _ => Seen(rec.ret.value, out)
  }

  function ExtractInfo(out: Vars, rec: Rec): Seen {
    Seen(rec.ret.value,
         if rec.ret.value == 0 && rec.args.TensorInfo? then Vars(rec.args.info, rec.args.size) else out)
  }

  /** What the emulated caller gets from client call `k`, an Invoke returning at once. */
  function EmulatedSeen(mod: Module, calls: seq<Call>, k: nat): Seen
    requires k < |calls|
  {
    var c := calls[k];
    if c.op.Invoke? then Seen(0, c.out)
    else
      var initial := FirstCall(mod, calls, k).incoming;
      Extract(c.op, c.out, Fill(c.op, Rec(c.args, Value(0), k), initial, ReplyTo(mod, calls, k)))
  }

  // ---------- States ----------

  datatype Msg = Msg(id: int, addr: Ptr)
  datatype Event = Event(success: bool, context: Ptr)
  datatype Output = Output(value: int, vars: Vars)

  datatype Client = Ready | Waiting(op: Op, addr: Ptr, out: Vars)

  datatype Worker =
    | Idle
    | Got(id: int, addr: Ptr)                                             // received, handler not entered
    | Filled(id: int, addr: Ptr)                                          // record filled, reply not sent
    | Invoked(addr: Ptr, context: Ptr, invokeRet: int)                    // module's Invoke returned
    | Collected(addr: Ptr, context: Ptr, invokeRet: int, output: Reply)   // and its GetOutput, with an output
    | Publishing(success: bool, context: Ptr)                             // event not yet published

  /** Bookkeeping: how one Invoke was handled. */
  datatype Outcome = Outcome(
    call: nat,
    context: Ptr,
    invokeRet: int,
    output: Reply,             // of the module's GetOutput
    vars: Vars,                // what that left in the record
    sent: bool,
    published: bool
  ) {
    predicate Success() { invokeRet >= 0 && output.value >= 0 && sent }
  }

  /** Bookkeeping. */
  datatype Log = Log(
    issued: nat,               // number of client calls made
    results: seq<Seen>,        // what the completed ones returned
    outcomes: seq<Outcome>,    // handled Invokes
    delivered: seq<Output>,    // what GetOutput handed out
    leaked: set<Ptr>           // records dropped by the worker
  )

  datatype State = State(
    client: Client,
    worker: Worker,
    requests: seq<Msg>,
    replies: seq<Msg>,
    outputs: seq<Msg>,
    events: seq<Event>,        // everything published, in order
    heap: map<Ptr, Rec>,       // the live records
    history: seq<ModuleCall>,  // the calls the module has received
    log: Log,
    fault: bool                // a failed assertion, or a record used or freed when not live
  )

  function Init(): State {
    State(Ready, Idle, [], [], [], [], map[], [], Log(0, [], [], [], {}), false)
  }

  datatype Action =
    | Send(addr: Ptr)          // client: the next call up to its Send, `addr` its record
    | RecvReply                // client: the rest of a synchronous call
    | TakeOutput               // client: GetOutput
    | Receive                  // worker: Recv in Main
    | Handle                   // worker: handler up to its module call
    | SendReply                // worker: Send of the reply
    | Collect                  // worker: Invoke's GetOutput call
    | Queue(queued: bool)      // worker: Invoke's Send to the output queue
    | Publish(written: bool)   // worker: PublishEventData

  // ---------- Steps ----------

  function Posted(log: Log, c: Call): Log {
    log.(issued := log.issued + 1, results := if c.op.Invoke? then log.results + [Seen(0, c.out)] else log.results)
  }

  /** The client's next call up to its Send, `addr` its record; `calls` is the list of calls it makes in this run. */
  function SendStep(calls: seq<Call>, s: State, addr: Ptr): State
    requires s.log.issued < |calls|
  {
    var c := calls[s.log.issued];
    s.(heap := s.heap[addr := Rec(c.args, Value(0), s.log.issued)],
       requests := s.requests + [Msg(Id(c.op), addr)],
       log := Posted(s.log, c),
       client := if c.op.Invoke? then Ready else Waiting(c.op, addr, c.out))
  }

  /** The client gets reply `m`, which must be the record that it sent. */
  function TakeReply(s: State, m: Msg): State
    requires s.client.Waiting?
  {
    if m.id == Id(s.client.op) && m.addr == s.client.addr && m.addr in s.heap then
      s.(log := s.log.(results := s.log.results + [Extract(s.client.op, s.client.out, s.heap[m.addr])]),
         heap := s.heap - {m.addr},
         client := Ready)
    else s.(fault := true)
  }

  function RecvStep(s: State): State
    requires s.client.Waiting? && s.replies != []
  {
    TakeReply(s.(replies := s.replies[1..]), s.replies[0])
  }

  /** What GetOutput hands out of an output record. */
  function OutputIn(rec: Rec): Output
    requires rec.args.Tensor?
  {
    Output(rec.ret.value, Vars(rec.args.tensor, rec.args.size))
  }

  /** The client gets output `m`, reads its record and frees it. */
  function TakeRecord(s: State, m: Msg): State {
    if m.id == Id(GetOutput) && m.addr in s.heap && s.heap[m.addr].args.Tensor? && s.heap[m.addr].ret.value >= 0 then
      s.(log := s.log.(delivered := s.log.delivered + [OutputIn(s.heap[m.addr])]),
         heap := s.heap - {m.addr})
    else s.(fault := true)
  }

  function TakeStep(s: State): State
    requires s.outputs != []
  {
    TakeRecord(s.(outputs := s.outputs[1..]), s.outputs[0])
  }

  function ReceiveStep(s: State): State
    requires s.worker.Idle? && s.requests != []
  {
    s.(requests := s.requests[1..], worker := Got(s.requests[0].id, s.requests[0].addr))
  }

  function ReplyStep(s: State): State
    requires s.worker.Filled?
  {
    s.(replies := s.replies + [Msg(s.worker.id, s.worker.addr)], worker := Idle)
  }

  /** The last of the handled Invokes has its event published, or not. */
  function MarkPublished(log: Log, written: bool): Log
    requires log.outcomes != []
  {
    var last := |log.outcomes| - 1;
    log.(outcomes := log.outcomes[last := log.outcomes[last].(published := written)])
  }

  function PublishStep(s: State, written: bool): State
    requires s.worker.Publishing? && s.log.outcomes != []
  {
    s.(events := if written then s.events + [Event(s.worker.success, s.worker.context)] else s.events,
       log := MarkPublished(s.log, written),
       worker := Idle)
  }

  function HandleStep(mod: Module, s: State): State
    requires s.worker.Got?
  {
    var id, addr := s.worker.id, s.worker.addr;
    if !(0 <= id < ID_LAST) then
      s.(worker := Idle, log := s.log.(leaked := s.log.leaked + {addr}))
    else if addr !in s.heap then
      s.(fault := true)
    else
      var op := COMMAND_TABLE[id];
      var rec := s.heap[addr];
      var call := HandlerCall(mod, op, rec.args, |s.history|);
      var r := mod.reply(s.history + [call]);
      if op.Invoke? then
        if rec.args.Tensor? then
          s.(history := s.history + [call], worker := Invoked(addr, rec.args.context, r.value))
        else s.(fault := true)
      else
        s.(history := s.history + [call],
           heap := s.heap[addr := Fill(op, rec, call.incoming, r)],
           worker := Filled(id, addr))
  }

  /** One more Invoke is handled. */
  function HandledInvoke(log: Log, o: Outcome): Log { log.(outcomes := log.outcomes + [o]) }

  function CollectStep(mod: Module, s: State): State
    requires s.worker.Invoked?
  {
    var addr, context, invokeRet := s.worker.addr, s.worker.context, s.worker.invokeRet;
    if addr !in s.heap || !s.heap[addr].args.Tensor? then
      s.(fault := true)
    else
      var rec := s.heap[addr];
      var call := HandlerCall(mod, GetOutput, rec.args, |s.history|);
      var r := mod.reply(s.history + [call]);
      if r.value < 0 then
        var vars := OutputIn(FillOutput(rec, r)).vars;
        s.(history := s.history + [call],
           heap := s.heap[addr := FillOutput(rec, r)],
           worker := Publishing(false, context),
           log := HandledInvoke(s.log.(leaked := s.log.leaked + {addr}),
                                Outcome(rec.birth, context, invokeRet, r, vars, false, false)))
      else
        s.(history := s.history + [call],
           heap := s.heap[addr := FillOutput(rec, r)],
           worker := Collected(addr, context, invokeRet, r))
  }

  /** The outcome of an Invoke whose output was collected. */
  function CollectedOutcome(w: Worker, rec: Rec, sent: bool): Outcome
    requires w.Collected? && rec.args.Tensor?
  {
    Outcome(rec.birth, w.context, w.invokeRet, w.output, OutputIn(rec).vars, sent, false)
  }

  function QueueStep(s: State, queued: bool): State
    requires s.worker.Collected?
  {
    var addr := s.worker.addr;
    if addr !in s.heap || !s.heap[addr].args.Tensor? then
      s.(fault := true)
    else
      var o := CollectedOutcome(s.worker, s.heap[addr], queued);
      s.(outputs := if queued then s.outputs + [Msg(Id(GetOutput), addr)] else s.outputs,
         heap := if queued then s.heap else s.heap - {addr},
         worker := Publishing(o.Success(), o.context),
         log := HandledInvoke(s.log, o))
  }

  predicate Enabled(calls: seq<Call>, s: State, a: Action) {
    match a
    case Send(addr) => s.client.Ready? && s.log.issued < |calls| && addr !in s.heap
    case RecvReply => s.client.Waiting? && s.replies != []
    case TakeOutput => s.outputs != []
    case Receive => s.worker.Idle? && s.requests != []
    case Handle => s.worker.Got?
    case SendReply => s.worker.Filled?
    case Collect => s.worker.Invoked?
    case Queue(_) => s.worker.Collected?
    case Publish(_) => s.worker.Publishing? && s.log.outcomes != []
  }

  function Step(mod: Module, calls: seq<Call>, s: State, a: Action): State {
    if !Enabled(calls, s, a) then s else
    match a
    case Send(addr) => SendStep(calls, s, addr)
    case RecvReply => RecvStep(s)
    case TakeOutput => TakeStep(s)
    case Receive => ReceiveStep(s)
    case Handle => HandleStep(mod, s)
    case SendReply => ReplyStep(s)
    case Collect => CollectStep(mod, s)
    case Queue(queued) => QueueStep(s, queued)
    case Publish(written) => PublishStep(s, written)
  }

  /** The state after a schedule.  Any run of a client makes some list of calls, so `calls` is a parameter. */
  function Run(mod: Module, calls: seq<Call>, schedule: seq<Action>): State {
    if schedule == [] then Init()
    else Step(mod, calls, Run(mod, calls, schedule[..|schedule| - 1]), schedule[|schedule| - 1])
  }

  ghost predicate Program(calls: seq<Call>) {
    forall k :: 0 <= k < |calls| ==> WellTyped(calls[k])
  }

  // ---------- The emulator ----------

  /**
   The emulator object of the two threads.  Every method is one atomic step of one
   thread and is proved to be the step of the state machine; bookkeeping is ghost.
   */
  class Emulator {
    const mod: Module

    var client: Client
    var worker: Worker
    var requests: seq<Msg>
    var replies: seq<Msg>
    var outputs: seq<Msg>
    var events: seq<Event>
    var heap: map<Ptr, Rec>
    var fault: bool
    var issued: nat
    ghost var history: seq<ModuleCall>
    ghost var results: seq<Seen>
    ghost var outcomes: seq<Outcome>
    ghost var delivered: seq<Output>
    ghost var leaked: set<Ptr>

    ghost function View(): State
      reads this
    {
      State(client, worker, requests, replies, outputs, events, heap, history,
            Log(issued, results, outcomes, delivered, leaked), fault)
    }

    constructor (mod: Module)
      ensures View() == Init() && this.mod == mod
    {
      this.mod := mod;
      client, worker := Ready, Idle;
      requests, replies, outputs, events := [], [], [], [];
      heap, fault, issued := map[], false, 0;
      history, results, outcomes, delivered, leaked := [], [], [], [], {};
    }

    /** The first half of every synchronous call: fill the stack record at `addr` and send it. */
    method Post(ghost calls: seq<Call>, c: Call, addr: Ptr)
      requires client.Ready? && issued < |calls| && calls[issued] == c && !c.op.Invoke? && addr !in heap
      modifies this
      ensures View() == SendStep(calls, old(View()), addr)
    {
      heap := heap[addr := Rec(c.args, Value(0), issued)];
      requests := requests + [Msg(Id(c.op), addr)];
      issued := issued + 1;
      client := Waiting(c.op, addr, c.out);
    }

    /** Invoke: hand a new record over to the worker and return at once. */
    method PostInvoke(ghost calls: seq<Call>, tensor: Ptr, size: int, context: Ptr, ghost out: Vars, addr: Ptr)
      returns (ret: int)
      requires client.Ready? && issued < |calls| && calls[issued] == Call(Invoke, Tensor(tensor, size, context), out)
      requires addr !in heap
      modifies this
      ensures View() == SendStep(calls, old(View()), addr)
      ensures ret == 0
    {
      heap := heap[addr := Rec(Tensor(tensor, size, context), Value(0), issued)];
      requests := requests + [Msg(Id(Invoke), addr)];
      issued := issued + 1;
      results := results + [Seen(0, out)];
      ret := 0;
    }

    /** The second half of a synchronous call: the reply must be the record that was sent. */
    method Await() returns (seen: Seen)
      requires client.Waiting? && replies != []
      modifies this
      ensures View() == RecvStep(old(View()))
      ensures !fault && !old(fault) ==> results == old(results) + [seen]
    {
      var m := replies[0];
      replies := replies[1..];
      if m.id != Id(client.op) || m.addr != client.addr || m.addr !in heap {
        fault := true;
        seen := Seen(0, NULL_VARS);
      } else {
        seen := Extract(client.op, client.out, heap[m.addr]);
        results := results + [seen];
        heap := heap - {m.addr};
        client := Ready;
      }
    }

    /** GetOutput: take the record over from the output queue, read it and free it. */
    method PopOutput() returns (output: Output)
      requires outputs != []
      modifies this
      ensures View() == TakeStep(old(View()))
      ensures !fault && !old(fault) ==> delivered == old(delivered) + [output]
    {
      var m := outputs[0];
      output := Output(0, NULL_VARS);
      outputs := outputs[1..];
      if m.id != Id(GetOutput) || m.addr !in heap || !heap[m.addr].args.Tensor? || heap[m.addr].ret.value < 0 {
        fault := true;
      } else {
        output := OutputIn(heap[m.addr]);
        delivered := delivered + [output];
        heap := heap - {m.addr};
      }
    }

    /** Main: receive the next command. */
    method ReceiveCommand()
      requires worker.Idle? && requests != []
      modifies this
      ensures View() == ReceiveStep(old(View()))
    {
      var m := requests[0];
      requests := requests[1..];
      worker := Got(m.id, m.addr);
    }

    /** The handler the table holds for the command: call the module with its own variables, fill the record. */
    method HandleCommand(stack: Vars, reply: Reply)
      requires worker.Got? && stack == mod.stack(|history|)
      requires worker.addr in heap && 0 <= worker.id < ID_LAST ==>
                 var op, args := COMMAND_TABLE[worker.id], heap[worker.addr].args;
                 reply == mod.reply(history + [HandlerCall(mod, op, args, |history|)])
      modifies this
      ensures View() == HandleStep(mod, old(View()))
    {
      var id, addr := worker.id, worker.addr;
      if id < 0 || id >= ID_LAST {
        worker, leaked := Idle, leaked + {addr};
        return;
      }
      if addr !in heap {
        fault := true;
        return;
      }
      var op, rec := COMMAND_TABLE[id], heap[addr];
      if op.Invoke? && !rec.args.Tensor? {
        fault := true;
        return;
      }
      var initial := Initial(op, rec.args, stack);
      history := history + [ModuleCall(op, Inputs(op, rec.args), initial)];
      if op.Invoke? {
        worker := Invoked(addr, rec.args.context, reply.value);
      } else {
        heap := heap[addr := Fill(op, rec, initial, reply)];
        worker := Filled(id, addr);
      }
    }

    /** The Send at the end of every handler but Invoke's. */
    method ReturnRecord()
      requires worker.Filled?
      modifies this
      ensures View() == ReplyStep(old(View()))
    {
      replies := replies + [Msg(worker.id, worker.addr)];
      worker := Idle;
    }

    /**
     Invoke's handler after the module's Invoke: the module's GetOutput writes into the record, or the record is
     dropped.
     */
    method CollectOutput(reply: Reply)
      requires worker.Invoked?
      requires worker.addr in heap ==>
                 reply == mod.reply(history + [HandlerCall(mod, GetOutput, heap[worker.addr].args, |history|)])
      modifies this
      ensures View() == CollectStep(mod, old(View()))
    {
      var addr, context, invokeRet := worker.addr, worker.context, worker.invokeRet;
      if addr !in heap || !heap[addr].args.Tensor? {
        fault := true;
        return;
      }
      var rec := heap[addr];
      var filled := FillOutput(rec, reply);
      history := history + [HandlerCall(mod, GetOutput, rec.args, |history|)];
      heap := heap[addr := filled];
      if reply.value < 0 {
        leaked := leaked + {addr};
        outcomes := outcomes + [Outcome(rec.birth, context, invokeRet, reply, OutputIn(filled).vars, false, false)];
        worker := Publishing(false, context);
      } else {
        worker := Collected(addr, context, invokeRet, reply);
      }
    }

    /** Its Send to the output queue: the record is passed on, or freed if that fails. */
    method QueueOutput(queued: bool)
      requires worker.Collected?
      modifies this
      ensures View() == QueueStep(old(View()), queued)
    {
      var addr := worker.addr;
      if addr !in heap || !heap[addr].args.Tensor? {
        fault := true;
        return;
      }
      var o := CollectedOutcome(worker, heap[addr], queued);
      outcomes := outcomes + [o];
      worker := Publishing(o.Success(), o.context);
      if queued {
        outputs := outputs + [Msg(Id(GetOutput), addr)];
      } else {
        heap := heap - {addr};
      }
    }

    /** PublishEventData, which may fail to write. */
    method PublishEvent(written: bool)
      requires worker.Publishing? && outcomes != []
      modifies this
      ensures View() == PublishStep(old(View()), written)
    {
      if written {
        events := events + [Event(worker.success, worker.context)];
      }
      var last := |outcomes| - 1;
      outcomes := outcomes[last := outcomes[last].(published := written)];
      worker := Idle;
    }
  }
}
