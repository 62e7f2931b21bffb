# Beyond: a verified model

Beyond offloads inference to runtimes and peers.  This project models the parts of it that hold
its concurrency, its state machines and its codecs, and proves what they keep over every run:

- **AsyncRuntime, AsyncInvariant, AsyncTheorems**: a client thread and a worker thread that emulate
  an asynchronous runtime over a request channel, a reply channel, an output queue and an event queue.
  The module behind them is any function from the calls it has received to its next reply: what it
  returns, and what it writes, if it does, through its reference parameters.
- **AsyncDirect**: the emulation against direct calls of the module, and when a caller can tell them apart.
- **AsyncObserved**: the arguments that reach the module and the results that reach the client, call by call.
- **CommandStream**: the byte stream under such a channel, with short writes and short reads.
- **AsyncOverBytes, BytesForQueues**: the emulation over three such byte streams instead of queues, and back.
- **EventLoop**: starting and stopping the loop, its wake-up messages and its stop handlers.
- **EventLoopHandler**: one handler of the loop, dispatched by the loop thread and removed by any threads.
- **EventObject**: the handler registry that is edited while it is dispatched from.
- **TensorType, TensorText, TensorExtract, TensorRoundTrip** (with **Decimal** and **Lists**): tensor
  infos printed into a pipeline description and read back from the element's properties.
- **TensorWire**: tensor infos on the wire and copied in memory.
- **PeerCache**: the client's cache of the server's tensor infos.
- **Session, NonceProtocol**: peer ids, sessions, and the nonces that number a client's calls.
- **NonceThreads**: the nonce check taken apart into the steps of any number of server threads.
- **RemoteInference**: the list of peers, the choice of one, and the model kept until then.
- **TensorRefcount**: tensor containers, their reference counts and the inferences that use them.
- **Prelude, Runs**: options, error numbers, and what holds of the runs of any state machine.

Concurrency is modelled by atomic steps: a state, an action type, a total `Step` in which an action
that is not enabled changes nothing, and `Run` over an arbitrary schedule.  A lemma about `Run` is
about every interleaving.  Beside each state machine, but for the two that take others apart
(AsyncOverBytes, NonceThreads), stands a class with the program's own fields, whose methods are proved
to take exactly these steps; fields marked ghost are bookkeeping.

Where the program does not keep what its comments or names suggest, the model follows the program:
a lemma shows a run where it fails, and another says exactly when it holds.

- StopLoop tests the state with a mask in which STOPPED has no bit.  A stop of a stopped loop is
  accepted and no later Run ever is; a Run whose thread cannot be created has the same effect, and
  nothing else has (`WhatWedges`, `WedgedForever`, `OthersCanRun`).
- An error event on the control socket, or a message read in part, cancels the control handler for
  good: from then on an accepted stop does not wake the loop (`ErrorEventDeafensTheLoop`, `DetachedForever`).
- RemoveEventHandler may return 0 and leave the handler, which then gets one more callback
  (`AcceptedButNotDeleted`, `AnotherCallExactlyWhen`, `LeftBehindExactlyWhen`).
- The emulation calls the module with its own variables and copies them back whatever the module did.
  A caller's reference parameters are as after a direct call exactly if the module wrote them all on
  success and none on failure (`EmulationRefinesDirectCalls`, `EveryCallerAgrees`); the pointer of a freed
  tensor is never reset (`FreeTensorLeavesPointer`), a positive return of the module's GetOutput is lost
  (`DeliveredOutputs`), and an Invoke whose GetOutput fails leaves its record behind (`OneOwner`).
- The emulated Invoke returns 0 whatever the module's returns (`InvokeValueIsLost`).  All that comes back
  of it is a sign, in its event (`EventsTellInvokes`, `EventIsDirect`).
- A retry that gives up inside an address leaves a stream that no longer starts where an address
  starts (`FramedExactlyUnless`).
- A type list never yields UINT64, a product of dimensions that wraps to a negative number is
  taken for an error (`ExactRoundTrip`, `FallbackRoundTrip`), and a rank is read from right to left (`RanksAreMirrored`).
- A Set whose reply is lost splits the client's cache from the server's store (`CoherentRuns`), and
  what the server stored outlives a LoadModel (`StoreOutlivesModel`).
- The server reads, compares and stores a session's nonce without a lock.  Two threads with the same call can
  both let it through (`CallLetThroughTwice`); calls get through in order and once each exactly as long as none is
  let through between the read and the store of another (`OnceExactlyUnlessOvertaken`).
- Removing the selected peer, or loading the empty model, drops the requested model (`StepKeepsModel`).
- An inference event with the error flag keeps its context and its input tensor (`LeakedForever`), and
  the user does not get the pointer of that inference back (`OwnPointerExactlyWhenReleased`).

## Model

| member | source | states |
|---|---|---|
| AsyncDirect.EmulationRefinesDirectCalls | subprojects/libbeyond/src/inference_runtime_impl_async.cc:519-552 | under every interleaving, for any program of calls and any module: the reply asserts never fail, no reply is left between calls, and the module got a prefix of the direct calls, all of them once the worker is idle, but for what the parameters it is to write hold; if it does not read those, every completed call returned what a direct call returns, unless it is an Invoke for which the module's did not return 0, and left its caller's variables so exactly if they were written on success and left alone on failure |
| AsyncDirect.EveryCallerAgrees | subprojects/libbeyond/src/inference_runtime_impl_async.cc:704-872 | a tensor info or allocation call leaves every caller, whatever its variables hold, as a direct call does exactly if the module wrote all of them and succeeded, or none and failed |
| AsyncDirect.CompletedCallsAreDirect | subprojects/libbeyond/src/inference_runtime_impl_async.cc:86-196 | on a module that writes exactly on success, resets no freed pointer and does not read what it is to write, a completed call of any schedule can be told from a direct one exactly if it is an Invoke for which the module's did not return 0 |
| AsyncDirect.EventsTellInvokes | subprojects/libbeyond/src/inference_runtime_impl_async.cc:241-295 | under every interleaving the events are those of the first Invokes of the program, in order and but for lost ones, each a success exactly if Invoke and GetOutput succeed when called directly and the output was queued |
| AsyncDirect.EventIsDirect | subprojects/libbeyond/src/inference_runtime_impl_async.cc:241-295 | where no output and no event is lost the i-th event is the i-th Invoke's, a success exactly if Invoke and GetOutput succeed when called directly |
| AsyncDirect.InvokeValueIsLost | subprojects/libbeyond/src/inference_runtime_impl_async.cc:930-959 | for every value a module's Invoke may return, the emulated one returns 0 and the direct one the value |
| AsyncDirect.InvokingModuleIsHonest | subprojects/libbeyond/src/inference_runtime_impl_async.cc:930-959 | that module neither reads what it is to write nor writes where it fails |
| AsyncDirect.DeliveredOutputs | subprojects/libbeyond/src/inference_runtime_impl_async.cc:961-989 | an output handed out by GetOutput is what a direct call gives exactly if the module returned 0 and wrote tensor and size, or the caller's variables held the Invoke's own |
| AsyncDirect.ReadingModuleDiffers | subprojects/libbeyond/src/inference_runtime_impl_async.cc:95-98 | a module that reads a parameter it is to write sees the handler's variable and not the caller's |
| AsyncTheorems.EveryCallGetsItsReply | subprojects/libbeyond/src/inference_runtime_impl_async.cc:519-552 | under every interleaving, for any module: the reply asserts never fail, each completed call returned what the module replied to its own handler's call, and those calls came in the order of the program |
| AsyncTheorems.WaitingIsAnswered | subprojects/libbeyond/src/inference_runtime_impl_async.cc:662-677 | a client waiting for a reply gets one by the worker's own steps, from every reachable state |
| AsyncTheorems.EventsAndOutputs | subprojects/libbeyond/src/inference_runtime_impl_async.cc:241-295 | outputs come in the order of the Invokes and are what the module replied to their handlers' calls, each handled Invoke publishes at most one event with its own context, success events never outnumber outputs, and match them one for one exactly when no output was queued for a failed or lost one |
| AsyncTheorems.SuccessesMatchOutputs | subprojects/libbeyond/src/inference_runtime_impl_async.cc:241-295 | if the module gives no output for a failed Invoke and no event is lost, then in every reachable state the i-th success event is the i-th output's, and an output is there before its event, which only the last one can still lack, between the two sends |
| AsyncTheorems.SuccessesVersusSent | subprojects/libbeyond/src/inference_runtime_impl_async.cc:257-286 | published successes are a part of the queued outputs, and all of them exactly if none failed or was lost |
| AsyncTheorems.OutputWithoutSuccess | subprojects/libbeyond/src/inference_runtime_impl_async.cc:257-286 | an output is queued with a failure event when Invoke fails and GetOutput then succeeds |
| AsyncTheorems.OneOwner | subprojects/libbeyond/src/inference_runtime_impl_async.cc:930-989 | every live record is in exactly one queue, or the worker's, or abandoned because the module gave no output; so none is freed twice, and the abandoned ones are counted |
| AsyncDirect.FreeTensorLeavesPointer | subprojects/libbeyond/src/inference_runtime_impl_async.cc:874-903 | a module that resets the pointer leaves the emulated caller with the old one |
| AsyncObserved.EveryArgumentArrives | subprojects/libbeyond/src/inference_runtime_impl_async.cc:48-239 | under every interleaving the module gets each client call with its operation and its arguments, and with the handler's own variables in what it may write; an Invoke is followed by a GetOutput into its tensor |
| AsyncObserved.DirectArguments | subprojects/libbeyond/src/inference_runtime_impl_async.cc:655-903 | a direct call gives the module the same arguments, and the caller's own variables |
| AsyncObserved.EveryResultIsItsReply | subprojects/libbeyond/src/inference_runtime_impl_async.cc:700-903 | under every interleaving a completed call gets the value the module replied to it, an info that came with 0, an allocated tensor that came with no error, and nothing else; an Invoke gets 0 |
| AsyncObserved.DirectResultIsItsReply | subprojects/libbeyond/src/inference_runtime_impl_async.cc:700-903 | a direct call gets the value replied to it and whatever was written |
| AsyncObserved.EveryOutcomeIsItsReplies | subprojects/libbeyond/src/inference_runtime_impl_async.cc:241-295 | under every interleaving an Invoke's context, event and output are those of the module's replies to it and to the GetOutput after it |
| AsyncObserved.EveryInvokeHasItsEvent | subprojects/libbeyond/src/inference_runtime_impl_async.cc:241-295 | where nothing is lost each Invoke has its event once the worker is idle, and its output is queued exactly if there is one |
| AsyncObserved.CallIsIssued | subprojects/libbeyond/src/inference_runtime_impl_async.cc:655-665 | a call's record is filled and sent; an Invoke is complete then, another call waits |
| AsyncObserved.ReplyCompletesTheCall | subprojects/libbeyond/src/inference_runtime_impl_async.cc:667-677 | in every reachable state with a reply it completes the call, and the client goes on |
| AsyncObserved.OutputIsHandedOut | subprojects/libbeyond/src/inference_runtime_impl_async.cc:961-989 | in every reachable state with an output GetOutput hands the first one out and frees its record |
| AsyncInvariant.Reachable | subprojects/libbeyond/src/inference_runtime_impl_async.cc:48-314 | the invariant that ties queues, records, worker, client and results together holds after every schedule |
| AsyncRuntime.Emulator.Post | subprojects/libbeyond/src/inference_runtime_impl_async.cc:655-665 | the first half of a synchronous call is one send step of the state machine |
| AsyncRuntime.Emulator.PostInvoke | subprojects/libbeyond/src/inference_runtime_impl_async.cc:930-959 | Invoke hands its new record over and returns at once, as one send step |
| AsyncRuntime.Emulator.Await | subprojects/libbeyond/src/inference_runtime_impl_async.cc:667-677 | the reply is taken and compared with the record sent, as one receive step |
| AsyncRuntime.Emulator.PopOutput | subprojects/libbeyond/src/inference_runtime_impl_async.cc:961-989 | GetOutput takes the first output's record over, reads and frees it |
| AsyncRuntime.Emulator.ReceiveCommand | subprojects/libbeyond/src/inference_runtime_impl_async.cc:519-552 | the worker takes the next command |
| AsyncRuntime.Emulator.HandleCommand | subprojects/libbeyond/src/inference_runtime_impl_async.cc:48-239 | the handler of the command calls the module with its own variables, null, 0 or whatever is on its stack, and fills the record with what they hold then |
| AsyncRuntime.Emulator.ReturnRecord | subprojects/libbeyond/src/inference_runtime_impl_async.cc:57-65 | the record goes back under the same id |
| AsyncRuntime.Emulator.CollectOutput | subprojects/libbeyond/src/inference_runtime_impl_async.cc:264-267 | after an Invoke the module's GetOutput writes into the record, which is left behind if it fails |
| AsyncRuntime.Emulator.QueueOutput | subprojects/libbeyond/src/inference_runtime_impl_async.cc:274-285 | the record of an output is queued, or freed if that fails |
| AsyncRuntime.Emulator.PublishEvent | subprojects/libbeyond/src/inference_runtime_impl_async.cc:288-292 | the event of the Invoke is published with its context |
| CommandStream.Framing | subprojects/libbeyond/src/command_object.cc:69-143 | for any fragmentation of reads and writes without a torn address: what was received is a prefix of what was sent, the rest is in flight, and the live records are exactly those in flight and the sender's own |
| CommandStream.FramedExactlyUnless | subprojects/libbeyond/src/command_object.cc:88-129 | a step from a framed state leaves it framed exactly if it is not a retry that gives up with part of an address moved |
| CommandStream.TornPointerBreaksFraming | subprojects/libbeyond/src/command_object.cc:88-97 | a Send that gives up after one byte makes the next Recv read an address that is no record's |
| CommandStream.NumberOfBytes | subprojects/libbeyond/src/command_object.cc:82-91 | the bytes of an address give the address back |
| CommandStream.RecvDoneKeepsInv | subprojects/libbeyond/src/command_object.cc:137-142 | a completely read address is the first one in flight, and its record is freed by its receiver |
| CommandStream.SendWrites | subprojects/libbeyond/src/command_object.cc:82-87 | a first write fails and frees the record, sends it, or leaves it to the retry with that much of its address in the stream |
| CommandStream.SendRetries | subprojects/libbeyond/src/command_object.cc:88-97 | the retry sends it if it writes all that is left, and otherwise frees it with what was written left in the stream |
| CommandStream.RecvReads | subprojects/libbeyond/src/command_object.cc:115-142 | a read of a whole address takes its record, a first read in part is continued once, and a null address is refused |
| CommandStream.Channel.FirstWrite | subprojects/libbeyond/src/command_object.cc:82-87 | the first write of Send, complete, short or failed |
| CommandStream.Channel.SecondWrite | subprojects/libbeyond/src/command_object.cc:88-97 | the one retry, which writes all that is left or tears the address |
| CommandStream.Channel.FirstRead | subprojects/libbeyond/src/command_object.cc:115-120 | the first read of Recv |
| CommandStream.Channel.SecondRead | subprojects/libbeyond/src/command_object.cc:121-129 | the one retry of Recv |
| AsyncOverBytes.BytesRefineQueues | subprojects/libbeyond/src/command_object.cc:69-143 | every run of the emulation over byte streams, with any fragmentation, in which no request or reply is lost and no address torn is a run over queues, with the same records, threads, calls and commands under way |
| BytesForQueues.QueuesRefineBytes | subprojects/libbeyond/src/command_object.cc:69-143 | and every run over queues is such a run over byte streams, so both reach the same states |
| AsyncOverBytes.BytesRefineDirectCalls | subprojects/libbeyond/src/inference_runtime_impl_async.cc:655-677 | so on such a run, too, no reply assert fails, no reply is under way between calls, the module gets the calls of direct callers, and the completed calls are like direct ones under the same conditions |
| AsyncOverBytes.BytesCarryOutputs | subprojects/libbeyond/src/inference_runtime_impl_async.cc:241-295 | and outputs and events are accounted for and every record whose address was sent has one owner, the commands under way in the streams standing for the queues |
| EventLoop.MaskMissesStopped | subprojects/libbeyond/src/event_loop_impl.cc:372-376 | the test for a loop already stopped is true of STOP_REQUESTED and of no other state, STOPPED included |
| EventLoop.OneLoopThread | subprojects/libbeyond/src/event_loop_impl.cc:758-765 | under every schedule at most one thread is between the acceptance of its Run and giving the loop back |
| EventLoop.NoStopIsLost | subprojects/libbeyond/src/event_loop_impl.cc:378-393 | a thread blocked in the wait of a loop told to stop has an unread wake-up, or the stopper is about to write it, or its write failed |
| EventLoop.StopWakesTheLoop | subprojects/libbeyond/src/event_loop_impl.cc:80-112 | while the control handler is registered and the wake-ups were written, the wake-up alone brings the thread out of its loop, with no further wait |
| EventLoop.LostStopStaysLost | subprojects/libbeyond/src/event_loop_impl.cc:378-393 | where no wake-up is due a stop alone never brings it out |
| EventLoop.ErrorEventDeafensTheLoop | subprojects/libbeyond/src/event_loop_impl.cc:84-97 | after an error event on the control socket a stop is accepted, its wake-up written, and the blocked thread never hears of it |
| EventLoop.DetachedForever | subprojects/libbeyond/src/event_loop_impl.cc:84-97 | a control handler that cancelled itself stays so in every run |
| EventLoop.NoIterationAfterStop | subprojects/libbeyond/src/event_loop_impl.cc:662-702 | once a loop is told to stop its current run begins no further wait, in any schedule |
| EventLoop.StopBeforeStartMeansNoWait | subprojects/libbeyond/src/event_loop_impl.cc:654-662 | a stop before the loop is entered leaves that run without a single wait |
| EventLoop.LoopCountBoundsWaits | subprojects/libbeyond/src/event_loop_impl.cc:662-665 | a positive loop count bounds the waits of a run, and zero means none |
| EventLoop.WhyARunEnds | subprojects/libbeyond/src/event_loop_impl.cc:662-706 | a run ends by a timeout, its loop count or a stop accepted during that run, never by a wake-up left over |
| EventLoop.StopBeforeStartWedges | subprojects/libbeyond/src/event_loop_impl.cc:372-383 | a stop of a stopped loop returns 0 and leaves a state in which no thread has the loop and none can get it |
| EventLoop.WhatWedges | subprojects/libbeyond/src/event_loop_impl.cc:758-786 | from any other reachable state exactly a stop of a stopped loop, and an accepted Run whose thread cannot be created, lead to such a state |
| EventLoop.WedgedForever | subprojects/libbeyond/src/event_loop_impl.cc:758-763 | from such a state every later Run is refused, in every schedule |
| EventLoop.OthersCanRun | subprojects/libbeyond/src/event_loop_impl.cc:758-765 | from every other reachable state some schedule gets a Run accepted |
| EventLoop.StopHandlerObjects | subprojects/libbeyond/src/event_loop_impl.cc:727-746 | a stop handler is called at most once and never after its deletion, none is deleted twice, and each is installed, in one thread's hand, or deleted |
| EventLoop.LeavingCallsTheStopHandler | subprojects/libbeyond/src/event_loop_impl.cc:706-746 | the thread that gives its loop back takes the stop handler that is installed, calls it once, and deletes its object |
| EventLoop.CalledUnlessReplaced | subprojects/libbeyond/src/event_loop_impl.cc:727-746 | under every schedule a stop event object that was deleted had its handler called exactly if no SetStopHandler replaced it |
| EventLoop.SetStopHandlerReplaces | subprojects/libbeyond/src/event_loop_impl.cc:798-823 | a SetStopHandler installs a new object, or none, and deletes the one before uncalled |
| EventLoop.StopIsNoted | subprojects/libbeyond/src/event_loop_impl.cc:367-383 | a Stop is refused if there was one and otherwise noted, with a wake-up exactly if the loop is in its loop |
| EventLoop.WakeupIsWritten | subprojects/libbeyond/src/event_loop_impl.cc:385-393 | the wake-up is one more message, unless the write fails |
| EventLoop.RunIsAccepted | subprojects/libbeyond/src/event_loop_impl.cc:758-765 | a Run is accepted exactly if the loop is stopped |
| EventLoop.RunIsLaunched | subprojects/libbeyond/src/event_loop_impl.cc:767-786 | the parameters are stored and the new thread, or the caller's own, enters |
| EventLoop.LoopIsEntered | subprojects/libbeyond/src/event_loop_impl.cc:592-660 | a loop whose count is zero, or whose parameters or buffers are not there, is given back; a stop that came before is kept |
| EventLoop.LoopGoesOn | subprojects/libbeyond/src/event_loop_impl.cc:662-665 | the loop waits on while it is started and its count is not used up |
| EventLoop.WaitReturns | subprojects/libbeyond/src/event_loop_impl.cc:665-706 | a timeout ends the loop, an interrupted wait goes on, and events are dispatched |
| EventLoop.ControlIsHandled | subprojects/libbeyond/src/event_loop_impl.cc:80-112 | the control handler takes one message, or cancels itself for an error or a message in part |
| EventLoop.EventLoop.StopLoop | subprojects/libbeyond/src/event_loop_impl.cc:367-383 | the locked section of a stop: return value, new state, and whether a wake-up is due |
| EventLoop.EventLoop.RequestStart | subprojects/libbeyond/src/event_loop_impl.cc:758-765 | the locked section of Run |
| EventLoop.EventLoop.EnterLoop | subprojects/libbeyond/src/event_loop_impl.cc:592-660 | the way into the loop, or back to STOPPED |
| EventLoop.EventLoop.CheckLoop | subprojects/libbeyond/src/event_loop_impl.cc:662-665 | the loop condition and the counting down |
| EventLoop.EventLoop.CtrlEventHandler | subprojects/libbeyond/src/event_loop_impl.cc:80-112 | one message is read from the control socket; an error event or a message read in part cancels the handler |
| EventLoop.EventLoop.WriteWakeup | subprojects/libbeyond/src/event_loop_impl.cc:385-393 | the wake-up of a stop, written or not, and the return value |
| EventLoop.EventLoop.ExchangeStopHandler | subprojects/libbeyond/src/event_loop_impl.cc:727-728 | the stop handler is taken out, by one thread only |
| EventLoop.EventLoop.SetStopHandler | subprojects/libbeyond/src/event_loop_impl.cc:798-823 | a stop handler is installed and the one before handed to the caller |
| EventLoopHandler.DeletedAtMostOnce | subprojects/libbeyond/src/event_loop_impl.cc:535-558 | for any number of removers a handler is deleted at most once, by the one thread whose exchange found it free |
| EventLoopHandler.CallbackHoldsInUse | subprojects/libbeyond/src/event_loop_impl.cc:318-327 | while the callback runs nobody else holds in_use, and the handler is not deleted |
| EventLoopHandler.CallsAfterRemove | subprojects/libbeyond/src/event_loop_impl.cc:318-352 | after a removal returned 0 at most one more callback starts, none if the handler is in its callback or gone, some schedule starts it exactly if the loop had decided to keep the handler, and later removals return -EALREADY |
| EventLoopHandler.AnotherCallExactlyWhen | subprojects/libbeyond/src/event_loop_impl.cc:318-352 | once the state is no longer INIT some schedule starts one more callback exactly if the loop is about to release the handler, or is away from it while it is not in use and the loop's own thread is not about to remove it |
| EventLoopHandler.LeftBehindExactlyWhen | subprojects/libbeyond/src/event_loop_impl.cc:332-351 | a removal that found the handler in use leaves it undeleted, once all threads are at rest, exactly if the loop had already judged it when the state was stored |
| EventLoopHandler.AcceptedButNotDeleted | subprojects/libbeyond/src/event_loop_impl.cc:332-351 | a removal that returned 0 with all threads done, the handler not deleted, and one more callback to come |
| EventLoopHandler.CallbackEndsInRemoval | subprojects/libbeyond/src/event_loop_impl.cc:332-349 | a handler removed during its callback, or cancelled by it, is deleted and its cancel handler called, once each, by the loop's next steps |
| EventLoopHandler.SelfRemoval | subprojects/libbeyond/src/event_loop_impl.cc:332-349 | under every schedule a handler that removed itself is cancelled exactly once, deleted exactly once, and never called again |
| EventLoopHandler.RemovalOfAnIdleHandler | subprojects/libbeyond/src/event_loop_impl.cc:562-579 | a removal of an idle handler deletes it without calling its cancel handler |
| EventLoopHandler.GoneIsFinal | subprojects/libbeyond/src/event_loop_impl.cc:318-323 | a handler in the hands of its remover never has a callback started again |
| EventLoopHandler.RemovalBegins | subprojects/libbeyond/src/event_loop_impl.cc:535-579 | a removal is refused once another was let through, and the exchange tells whether it has the handler to itself |
| EventLoopHandler.RemovalEnds | subprojects/libbeyond/src/event_loop_impl.cc:535-558 | one that found it in use leaves it marked, one that did not takes it out of epoll and deletes it, and either returns 0 |
| EventLoopHandler.CallbackIsJudged | subprojects/libbeyond/src/event_loop_impl.cc:318-352 | an event calls the handler unless it is in use, and its answer and its state decide what becomes of it |
| EventLoopHandler.DoomedIsRemoved | subprojects/libbeyond/src/event_loop_impl.cc:332-349 | a doomed handler is removed by the loop, which then calls its cancel handler |
| EventLoopHandler.HandlerObject.TryUse | subprojects/libbeyond/src/event_loop_impl.cc:318-323 | the loop's exchange of in_use |
| EventLoopHandler.HandlerObject.IsDoomed | subprojects/libbeyond/src/event_loop_impl.cc:332-332 | the decision after the callback |
| EventLoopHandler.HandlerObject.ExchangeInUse | subprojects/libbeyond/src/event_loop_impl.cc:537-543 | a remover's exchange of in_use, whose result makes it owner or leaves it to mark |
| EventLoopHandler.HandlerObject.LoadState | subprojects/libbeyond/src/event_loop_impl.cc:573-576 | the test of the state that answers -EALREADY |
| EventObject.RegistryInvariant | subprojects/libbeyond/src/event_object.cc:50-107 | after every run of additions, removals and dispatches, entries of one handler and one data share no event type, so a non-zero mask matches at most one |
| EventObject.RemoveUndoesAdd | subprojects/libbeyond/src/event_object.cc:50-107 | removing what was just added restores the list |
| EventObject.ZeroMaskIsNeverTaken | subprojects/libbeyond/src/event_object.cc:56-63 | a registration with mask zero is accepted whatever is there |
| EventObject.CallAt | subprojects/libbeyond/src/event_object.cc:171-186 | each entry the event meets is called, at its rank: its own handler, with the bits in common, the event as fetched, and its own data |
| EventObject.SurvivesWhen | subprojects/libbeyond/src/event_object.cc:171-195 | an entry stays exactly if it is not called, or its callback neither returns CANCEL nor removes its own registration |
| EventObject.BitsOfBoth | subprojects/libbeyond/src/event_object.cc:171-171 | an event is met by a bit in common |
| EventObject.SelectedBits | subprojects/libbeyond/src/event_object.cc:130-165 | each of what select reports is its own bit, and no other is set |
| EventObject.AddingAppends | subprojects/libbeyond/src/event_object.cc:50-80 | an addition is refused exactly if an entry of the handler and data has one of its event types already |
| EventObject.RemovingErasesOrMarks | subprojects/libbeyond/src/event_object.cc:82-107 | a removal erases the first entry of just its handler, data and mask, or marks it while it is called |
| EventObject.RemovingFindsNone | subprojects/libbeyond/src/event_object.cc:82-107 | without such an entry it returns -ENOENT |
| EventObject.CallFrom | subprojects/libbeyond/src/event_object.cc:171-186 | every call is made by an entry the event meets |
| EventObject.SurvivorAt | subprojects/libbeyond/src/event_object.cc:187-195 | an entry that did not return CANCEL or remove itself is left, in its order |
| EventObject.SurvivorFrom | subprojects/libbeyond/src/event_object.cc:187-195 | every entry that is left is such an old one |
| EventObject.OneCallPerBit | subprojects/libbeyond/src/event_object.cc:171-186 | an event of one bit never calls one handler with one data twice |
| EventObject.SelfRemovalMarks | subprojects/libbeyond/src/event_object.cc:82-107 | a handler that removes its own registration while it is called finds that very entry and marks it |
| EventObject.EventObject.AddHandler | subprojects/libbeyond/src/event_object.cc:50-80 | the search for an overlap, and the new list |
| EventObject.EventObject.RemoveHandler | subprojects/libbeyond/src/event_object.cc:82-107 | -ENOENT, -EALREADY or 0, and the list with the first match erased or marked |
| EventObject.EventObject.Dispatch | subprojects/libbeyond/src/event_object.cc:171-196 | the walk that edits its list makes exactly the filtered calls and leaves exactly the survivors |
| EventObject.EventObject.FetchEventData | subprojects/libbeyond/src/event_object.cc:116-200 | the error returns leave everything, the fetcher's CANCEL skips the calls, otherwise the event is dispatched |
| TensorType.NameRoundTrip | subprojects/libbeyond/src/inference.cc:38-119 | a type's name is read back as that type exactly if it is not UINT64, which no name is read as |
| TensorType.NameTellsSize | subprojects/libbeyond/src/inference.cc:38-119 | a type is named after its kind and its size in bits |
| TensorText.TensorInfoToProperties | subprojects/libbeyond-peer_nn/src/peer_grpc_server_gst.cc:92-148 | the loops print the comma list of type names and of dimension texts, each the four padded dimensions with the last first |
| TensorText.DimsTextForms | subprojects/libbeyond-peer_nn/src/peer_grpc_server_gst.cc:113-145 | the text of one, two, three or four dimensions, and of any other number |
| TensorText.PropertiesForms | subprojects/libbeyond-peer_nn/src/peer_grpc_server_gst.cc:92-148 | the whole text for one info, and for two |
| TensorText.DimsParser1 | subprojects/libbeyond-peer_nn/src/peer_grpc_server_gst.cc:53-61 | the values array and the returned product |
| TensorText.DimsParser2 | subprojects/libbeyond-peer_nn/src/peer_grpc_server_gst.cc:63-71 | the values array and the returned product, wrapped to an int |
| TensorText.DimsParser3 | subprojects/libbeyond-peer_nn/src/peer_grpc_server_gst.cc:73-81 | the values array and the returned product, wrapped to an int |
| TensorText.DimsParser4 | subprojects/libbeyond-peer_nn/src/peer_grpc_server_gst.cc:83-90 | the values array and the returned product, wrapped to an int |
| TensorText.ParseForms | subprojects/libbeyond-peer_nn/src/peer_grpc_server_gst.cc:53-90 | too few numbers are -EINVAL; else the last one read comes first, behind a batch of 1 unless there are four, with their product |
| TensorExtract.ReadRanks | subprojects/libbeyond-peer_nn/src/peer_grpc_server_gst.cc:174-197 | the scan of the rank list, digit by digit |
| TensorExtract.CutAtCommas | subprojects/libbeyond-peer_nn/src/peer_grpc_server_gst.cc:208-220 | the scan of a comma list yields exactly its parts |
| TensorExtract.ExtractTensorInfo | subprojects/libbeyond-peer_nn/src/peer_grpc_server_gst.cc:150-296 | what is extracted from any properties, with every error return and every read out of bounds |
| TensorExtract.ExtractNeedsBoth | subprojects/libbeyond-peer_nn/src/peer_grpc_server_gst.cc:200-240 | without types, or without dimensions, -EFAULT is returned |
| TensorExtract.AttributeFits | subprojects/libbeyond-peer_nn/src/peer_grpc_server_gst.cc:160-202 | a property's name is cut at 23 characters |
| TensorExtract.ExtractOneInfo | subprojects/libbeyond-peer_nn/src/peer_grpc_server_gst.cc:241-291 | one info is read by the parser of its rank, three without ranks, and ranks that no parser is there for are faults |
| TensorExtract.ExtractOutOfBounds | subprojects/libbeyond-peer_nn/src/peer_grpc_server_gst.cc:241-276 | more types than dimensions or ranks read out of bounds |
| TensorRoundTrip.RoundTrip | subprojects/libbeyond-peer_nn/src/peer_grpc_server_gst.cc:92-296 | print, configure, extract, for all infos of one to four int dimensions and all ranks of one to three or none: what comes back, or that a negative product is taken for an error |
| TensorRoundTrip.ExactRoundTrip | subprojects/libbeyond-peer_nn/src/peer_grpc_server_gst.cc:92-296 | with ranks that fit, types and dimensions come back as they were if and only if no product wraps below zero and no type is UINT64 |
| TensorRoundTrip.FallbackRoundTrip | subprojects/libbeyond-peer_nn/src/peer_grpc_server_gst.cc:257-291 | without ranks, dimensions come back with 1s in front up to four and the size they made before, under the same condition |
| TensorRoundTrip.FallbackSizes | subprojects/libbeyond-peer_nn/src/peer_grpc_server_gst.cc:257-291 | without ranks, an extracted size is element size times the product of the printed dimensions exactly if that fits an int |
| TensorRoundTrip.DimsComeBack | subprojects/libbeyond-peer_nn/src/peer_grpc_server_gst.cc:53-90 | dimensions come back as they were exactly if the batch is 1 and the rank fits |
| TensorRoundTrip.PaddedComeBack | subprojects/libbeyond-peer_nn/src/peer_grpc_server_gst.cc:257-276 | without ranks the padded dimensions come back exactly if there are at most three or the batch is 1 |
| TensorRoundTrip.SizeComesBack | subprojects/libbeyond-peer_nn/src/peer_grpc_server_gst.cc:278-287 | the extracted size is element size times product exactly if that fits an int |
| TensorRoundTrip.RanksAreMirrored | subprojects/libbeyond-peer_nn/src/peer_grpc_server_gst.cc:174-197 | every printed list of ranks is read with each numeral from right to left, wrapped to an int |
| TensorRoundTrip.RankComesBack | subprojects/libbeyond-peer_nn/src/peer_grpc_server_gst.cc:174-197 | a rank comes back exactly if its numeral read from right to left wraps to it |
| TensorRoundTrip.ConfiguredBy | subprojects/libbeyond-peer_nn/src/peer_grpc_server_gst.cc:92-148 | the printed description splits into exactly the two properties |
| TensorWire.WireRoundTrip | subprojects/libbeyond-peer_nn/src/peer_grpc_client.cc:356-403 | everything but null names survives the wire, messages survive memory, and a second passage changes nothing |
| TensorWire.SameOnTheWire | subprojects/libbeyond-peer_nn/src/peer_grpc_server.cc:389-413 | two lists send the same messages exactly if they differ in nothing but null and empty names |
| TensorWire.SetRequest | subprojects/libbeyond-peer_nn/src/peer_grpc_client.cc:447-468 | -EINVAL exactly if some info has no dimensions, with the request filled up to it; otherwise every info is sent |
| TensorWire.RequestToInfo | subprojects/libbeyond-peer_nn/src/peer_grpc_server.cc:415-461 | the infos received, in new memory with no name or dimensions shared |
| TensorWire.GetTensorInfoFromResponse | subprojects/libbeyond-peer_nn/src/peer_grpc_client.cc:356-403 | the infos received, in new memory with no name or dimensions shared |
| TensorWire.InfoToResponse | subprojects/libbeyond-peer_nn/src/peer_grpc_server.cc:389-413 | every info is sent, a null name as the empty one |
| TensorWire.DupTensorInfo | subprojects/libbeyond-peer_nn/src/peer_model.cc:113-158 | an equal copy in new memory that shares no name and no dimensions with its source or within itself |
| TensorWire.SetOnServer | subprojects/libbeyond-peer_nn/src/peer_grpc_server.cc:415-461 | a list set by the client is in new memory of the server as it was but for null names, or the call fails because an info has no dimensions |
| TensorWire.GetFromServer | subprojects/libbeyond-peer_nn/src/peer_grpc_client.cc:356-403 | a list got from the server is in new memory of the client as it was but for null names |
| TensorWire.SetAndGet | subprojects/libbeyond-peer_nn/src/peer_grpc_server.cc:463-508 | a list sent to the server and got back is the list itself but for null names |
| PeerCache.CoherentRuns | subprojects/libbeyond-peer_nn/src/peer_grpc_client.cc:278-299 | every run of LoadModel, Set, Get and the server's Prepare, answered or not, keeps a side coherent exactly if no Set with another list loses its reply |
| PeerCache.StepSplits | subprojects/libbeyond-peer_nn/src/peer_grpc_client.cc:470-503 | the one kind of step that makes a coherent side incoherent, and no other does |
| PeerCache.AnswerRepairs | subprojects/libbeyond-peer_nn/src/peer_grpc_client.cc:278-299 | an answered Set or LoadModel makes a side coherent whatever it was |
| PeerCache.CachedIsFresh | subprojects/libbeyond-peer_nn/src/peer_grpc_client.cc:405-445 | a Get answered from a coherent cache gives what the server would send |
| PeerCache.StoreOutlivesModel | subprojects/libbeyond-peer_nn/src/peer_grpc_server_gst.cc:490-510 | after another LoadModel and Prepare a side keeps what was stored before or takes what was extracted, so a Get is of the new model exactly if nothing was stored or the same |
| PeerCache.LostReplySplits | subprojects/libbeyond-peer_nn/src/peer_grpc_client.cc:470-503 | a run whose Get gives the client's old list although the server has the new one |
| PeerCache.SetStoresAndCaches | subprojects/libbeyond-peer_nn/src/peer_grpc_client.cc:470-503 | a delivered Set is stored, and cached only with its reply; one that is not sent or not answered returns an error |
| PeerCache.FetchCaches | subprojects/libbeyond-peer_nn/src/peer_grpc_client.cc:405-445 | a Get is answered from the cache, or the server's infos are cached |
| PeerCache.LoadModelClears | subprojects/libbeyond-peer_nn/src/peer_grpc_client.cc:278-299 | an answered LoadModel clears the cache alone; a Prepare fills the store where it is empty |
| PeerCache.Session.SetCall | subprojects/libbeyond-peer_nn/src/peer_grpc_client.cc:470-503 | the client's Set for each outcome of the call |
| PeerCache.Session.FetchCall | subprojects/libbeyond-peer_nn/src/peer_grpc_client.cc:405-445 | the client's Get, from the cache or the server |
| PeerCache.Session.LoadModelCall | subprojects/libbeyond-peer_nn/src/peer_grpc_client.cc:278-299 | an answered LoadModel clears both caches whatever its status |
| PeerCache.Session.FillFromPipeline | subprojects/libbeyond-peer_nn/src/peer_grpc_server_gst.cc:490-510 | Prepare fills a side only if it is empty and could be extracted |
| Session.LiveEntries | subprojects/libbeyond-peer_nn/src/peer_grpc_server.cc:239-275 | in every run of at most 2^64 key exchanges, among any lookups, the entries that are not null are exactly the decimal numbers below the count, each bound to its own session |
| Session.ExchangeIsFresh | subprojects/libbeyond-peer_nn/src/peer_grpc_server.cc:239-275 | a key exchange hands out an id of no live session exactly if fewer than 2^64 were made |
| Session.AcceptedResolves | subprojects/libbeyond-peer_nn/src/peer_grpc_server.cc:147-165 | an id accepted with its nonce resolves to the same session, which is not null, ever after |
| Session.WhoGetsThrough | subprojects/libbeyond-peer_nn/src/peer_grpc_server_auth.cc:48-100 | a call gets through exactly if its method is a non-empty prefix of ExchangeKey or it carries its session's nonce |
| Session.OnlyItsOwnNonce | subprojects/libbeyond-peer_nn/src/peer_grpc_server_auth.cc:72-98 | an accepted call advances its own session's nonce and no other |
| Session.WhoGetsASession | subprojects/libbeyond-peer_nn/src/peer_grpc_server.cc:193-280 | a key exchange makes a session exactly if its credential's uuid begins with the server's, where there is an authenticator, and then a new one with the credential's nonce under the next id |
| Session.ExchangeRefuses | subprojects/libbeyond-peer_nn/src/peer_grpc_server.cc:193-280 | each failure of a key exchange has its own status and changes nothing |
| Session.EverySessionIsForServer | subprojects/libbeyond-peer_nn/src/peer_grpc_server.cc:193-280 | in every run of a server with an authenticator each session was made for a credential that is for this server |
| Session.ProcessAnswers | subprojects/libbeyond-peer_nn/src/peer_grpc_server_auth.cc:38-101 | the status of every call in order, and the map and nonces after it |
| Session.LookupLeavesEntry | subprojects/libbeyond-peer_nn/src/peer_grpc_server.cc:147-165 | a lookup resolves an id and leaves an entry, null for an unknown one |
| Session.GrpcServer.ExchangeKey | subprojects/libbeyond-peer_nn/src/peer_grpc_server.cc:193-280 | each failure's own status with nothing changed, otherwise the new session, its id and the next one, and the nonce of the credential or, without an authenticator, none |
| Session.GrpcServer.GetGst | subprojects/libbeyond-peer_nn/src/peer_grpc_server.cc:147-165 | the lookup, with the null entry it leaves for an unknown id |
| Session.GrpcServer.Authenticate | subprojects/libbeyond-peer_nn/src/peer_grpc_server_auth.cc:38-101 | the status of a call and the session map after it |
| NonceProtocol.AcceptedAreConsecutive | subprojects/libbeyond-peer_nn/src/peer_grpc_server_auth.cc:78-98 | with any number of clients and a network that drops, repeats and reorders, the calls of a client that get through are its first ones, in order and once each, and the server's nonce is the start plus their number, never past the client's |
| NonceProtocol.AcceptedIfInOrder | subprojects/libbeyond-peer_nn/src/peer_grpc_server_auth.cc:93-98 | the first j calls get through exactly if they are delivered in order with anything in between |
| NonceProtocol.LosslessInOrder | subprojects/libbeyond-peer_nn/src/peer_grpc_client_auth.cc:43-48 | delivered in order and without loss, every call gets through |
| NonceProtocol.LostCallBlocks | subprojects/libbeyond-peer_nn/src/peer_grpc_server_auth.cc:93-96 | a call that is never delivered shuts out every later one |
| NonceProtocol.FitsWhenNext | subprojects/libbeyond-peer_nn/src/peer_grpc_server_auth.cc:93-96 | a delivered call gets through exactly if it is the next one |
| NonceProtocol.CallIsMade | subprojects/libbeyond-peer_nn/src/peer_grpc_client_auth.cc:30-51 | a call that claims no key exchange carries the client's id and nonce, which goes on by one |
| NonceProtocol.CallIsDelivered | subprojects/libbeyond-peer_nn/src/peer_grpc_server_auth.cc:38-101 | a call that is delivered is let through exactly if the server's check says so |
| NonceProtocol.ClientJoins | subprojects/libbeyond-peer_nn/src/peer_grpc_server.cc:193-280 | a key exchange makes a session, and a client under its id if the answer comes |
| NonceProtocol.GrpcClient.GetMetadata | subprojects/libbeyond-peer_nn/src/peer_grpc_client_auth.cc:30-51 | the metadata of a call, and the nonce after it |
| NonceThreads.OnceExactlyUnlessOvertaken | subprojects/libbeyond-peer_nn/src/peer_grpc_server_auth.cc:78-98 | for any threads in any order, the calls of a session that are let through are in the order of their nonces, and none twice, and either holds exactly if no call is let through between the read and the store of another |
| NonceThreads.OvertakenSetsBack | subprojects/libbeyond-peer_nn/src/peer_grpc_server_auth.cc:78-98 | a store that comes after another's lets a call through a second time and sets the nonce back to the one after it |
| NonceThreads.OneAtATimeIsEnough | subprojects/libbeyond-peer_nn/src/peer_grpc_server_auth.cc:78-98 | with one thread at a time between read and store none is overtaken |
| NonceThreads.UnbrokenIsProcess | subprojects/libbeyond-peer_nn/src/peer_grpc_server_auth.cc:38-101 | the three steps without a break are the undivided check |
| NonceThreads.CallLetThroughTwice | subprojects/libbeyond-peer_nn/src/peer_grpc_server_auth.cc:78-98 | from any state, two threads that take up one fitting call at the same time both let it through |
| Decimal.ScanPrinted | subprojects/libbeyond-peer_nn/src/peer_grpc_server_gst.cc:73-81 | a printed number is scanned back up to what follows it |
| Decimal.Injective | subprojects/libbeyond-peer_nn/src/peer_grpc_server_auth.cc:93-96 | different numbers print differently |
| Decimal.NumeralIsDecimal | subprojects/libbeyond-peer_nn/src/peer_grpc_server_auth.cc:93-96 | numerals are decimal, a minus in front of negative ones |
| Decimal.ScanForms | subprojects/libbeyond-peer_nn/src/peer_grpc_server_gst.cc:53-90 | %d takes a sign and all the digits there are |
| Decimal.ScansOnBehindBlanks | subprojects/libbeyond-peer_nn/src/peer_grpc_server_gst.cc:53-90 | %d skips blanks |
| Decimal.ScanNeedsDigit | subprojects/libbeyond-peer_nn/src/peer_grpc_server_gst.cc:53-90 | %d takes nothing without a digit |
| RemoteInference.ChoiceIsArgMax | subprojects/libbeyond/src/inference_impl_remote.cc:175-217 | for every list the peer chosen is the earliest with the lexicographic maximum of free memory and storage among readable peers that have any, and the first one if none has |
| RemoteInference.PrepareSelects | subprojects/libbeyond/src/inference_impl_remote.cc:163-231 | a Prepare without a peer selects the arg max, or the first if there is none, and loads the model kept; if that fails it selects none |
| RemoteInference.PrepareSelectsOnce | subprojects/libbeyond/src/inference_impl_remote.cc:163-173 | once a peer is selected a Prepare changes nothing, and without peers it fails |
| RemoteInference.PeersAndHandlers | subprojects/libbeyond/src/inference_impl_remote.cc:329-385 | in every run no peer is listed twice, the selected one is listed, and a live handler is registered with exactly the listed ones, even while handlers are being called |
| RemoteInference.StepKeepsModel | subprojects/libbeyond/src/inference_impl_remote.cc:260-282 | a step keeps the requested model pending or loaded exactly if it neither removes the selected peer nor loads the empty model |
| RemoteInference.PreparedWithModel | subprojects/libbeyond/src/inference_impl_remote.cc:163-231 | in every run that drops no model a Prepare that succeeds leaves the last requested model loaded on the selected peer, whatever failed before |
| RemoteInference.RemovalDropsModel | subprojects/libbeyond/src/inference_impl_remote.cc:378-382 | after the selected peer is removed the next Prepare succeeds with whatever model another peer has |
| RemoteInference.LoadModelKeepsOrLoads | subprojects/libbeyond/src/inference_impl_remote.cc:260-282 | one model is kept, or loaded on the selected peer; any other number is refused |
| RemoteInference.AddPeerAppends | subprojects/libbeyond/src/inference_impl_remote.cc:329-356 | a peer is appended with a handler, unless it is listed, its old handler is being called, or it cannot be activated |
| RemoteInference.RemovePeerTakesOut | subprojects/libbeyond/src/inference_impl_remote.cc:358-385 | a peer is taken out of the list, in which the others stay in order, and deselected |
| RemoteInference.RemovePeerNotListed | subprojects/libbeyond/src/inference_impl_remote.cc:358-368 | a peer that is not listed is refused |
| RemoteInference.RemovedWhileCalled | subprojects/libbeyond/src/inference_impl_remote.cc:358-385 | a peer removed during the call of its handler cannot be added again before the call returns |
| RemoteInference.Remote.SelectPeer | subprojects/libbeyond/src/inference_impl_remote.cc:175-217 | the selection loop computes that choice |
| RemoteInference.Remote.PrepareCall | subprojects/libbeyond/src/inference_impl_remote.cc:163-231 | Prepare with every return |
| RemoteInference.Remote.LoadModelCall | subprojects/libbeyond/src/inference_impl_remote.cc:260-282 | LoadModel with every return |
| RemoteInference.Remote.AddPeerCall | subprojects/libbeyond/src/inference_impl_remote.cc:329-356 | AddPeer, with the handler taken back when the peer cannot be activated |
| RemoteInference.Remote.RemovePeerCall | subprojects/libbeyond/src/inference_impl_remote.cc:358-385 | RemovePeer, with the selection reset |
| TensorRefcount.RefcountConservation | subprojects/libbeyond-generic-capi/src/inference_capi.cc:47-72 | in every run a count is the user's references and the contexts not released, and with a valid handle the container is freed, once, exactly when that is zero |
| TensorRefcount.NotFreedInUse | subprojects/libbeyond-generic-capi/src/inference_capi.cc:332-368 | a container is never freed while a context points at it |
| TensorRefcount.WhenAnEventReleases | subprojects/libbeyond-generic-capi/src/inference_capi.cc:133-149 | an event gives its context's reference back exactly if it is an inference's, has no error flag, and the handle is valid |
| TensorRefcount.LeakedForever | subprojects/libbeyond-generic-capi/src/inference_capi.cc:133-149 | the input of a context whose event was not such a one is never freed |
| TensorRefcount.FailedDoChangesNothing | subprojects/libbeyond-generic-capi/src/inference_capi.cc:332-368 | a do that fails changes no count and frees nothing |
| TensorRefcount.DoTakesReference | subprojects/libbeyond-generic-capi/src/inference_capi.cc:332-368 | a do that succeeds takes one reference of its input and makes a context in flight; one with another's tensor or without a handle is refused |
| TensorRefcount.InputOutlivesInference | subprojects/libbeyond-generic-capi/src/inference_capi.cc:332-368 | from a do that succeeded until its event the input is not freed, whatever else is done |
| TensorRefcount.EventGivesBack | subprojects/libbeyond-generic-capi/src/inference_capi.cc:118-157 | an event gives one reference back, and the input is freed with it if it was the last |
| TensorRefcount.RefAndUnref | subprojects/libbeyond-generic-capi/src/inference_capi.cc:47-72 | the user's references, counted one by one, free the container at zero |
| TensorRefcount.NewContainerIsHeld | subprojects/libbeyond-generic-capi/src/inference_capi.cc:269-300 | a tensor allocated or got with a valid handle is a new container with one reference |
| TensorRefcount.ReleasingBits | subprojects/libbeyond-generic-capi/src/inference_capi.cc:133-137 | the bits of the event type by which it releases |
| TensorRefcount.ToldType | subprojects/libbeyond-generic-capi/src/inference_capi.cc:131-155 | the type and data the user's callback is told |
| TensorRefcount.Capi.TensorContainerUnref | subprojects/libbeyond-generic-capi/src/inference_capi.cc:53-72 | the count after, and whether the container is gone |
| TensorRefcount.Capi.DoInference | subprojects/libbeyond-generic-capi/src/inference_capi.cc:332-368 | the reference taken for an inference, and given back if it cannot start |
| TensorRefcount.Capi.EventHandler | subprojects/libbeyond-generic-capi/src/inference_capi.cc:118-157 | for every outcome of the fetch, null data and null context included: whether the handler cancels itself, what the user's callback is told, and what becomes of the context and its input |
| TensorRefcount.OwnPointerExactlyWhenReleased | subprojects/libbeyond-generic-capi/src/inference_capi.cc:133-149 | the user gets the pointer of an inference back exactly with the event that gives its reference back |
| TensorRefcount.Capi.MakeContainer | subprojects/libbeyond-generic-capi/src/inference_capi.cc:269-300 | a new container with one reference, the user's |

## Left out

- Allocation failures, and the clean-up they cause.
- AsyncOverBytes.BytesRefineQueues: says nothing after a request or a reply was lost to an error, or an address torn; the failures themselves are CommandStream's.
- AsyncDirect.EmulationRefinesDirectCalls: the part on results needs a module that does not read the parameters it is to write; ReadingModuleDiffers shows that it does.
- Memory reuse: a deleted handler, a freed container and a torn address keep their place; a freed command record's address may be given out again.
- CommandStream.Framing: says nothing after a torn address; FramedExactlyUnless shows that one is enough to lose framing.
- EventLoop.CtrlEventHandler: what is left in the socket after a message was read in part; the handler that would read it is gone.
- EventLoop: the deletion of the loop by its own stop handler, the signal descriptor and the wait's timeout value.
- EventLoopHandler: the event mask of the wait, and the handlers of other event objects; a handler removed from another handler's callback is a removal by the loop's thread.
- EventObject: handlers added or removed from inside a callback, other than the callback's own registration; the identity of the list's records, which are values of a sequence here.
- Wall-clock time, select, epoll, sockets, pipes, dlopen and the transport of calls: they are parameters, queues, byte streams and maps.
- TensorText.DimsParser1: a numeral beyond an int is undefined for sscanf and for the int product; the model wraps both around.
- TensorExtract.ExtractTensorInfo: reads out of bounds and dimensions left unset are one result, Fault; nothing is said of what follows them.
- TensorRoundTrip.Configured: the pipeline parser is reduced to fields separated by blanks, each a key and a value.
- TensorWire: names are arrays without a terminating NUL, and hold none; an enumeration value outside the types named is UNSUPPORTED.
- PeerCache: a server that is asked for infos it does not have, which its assertion excludes; negative sizes.
- NonceThreads: threads that change the session map itself at the same time; a lookup in it is one step.
- Session: decryption, keys and certificates, of which ExchangeKey takes the outcome; a metadata key given twice, of which the first value counts.
- NonceProtocol.AcceptedAreConsecutive: holds for fewer than 2^64 calls of a client, after which the nonces repeat; forged calls are outside it, and the check of a call is one step there, which NonceThreads takes apart.
- RemoteInference: other users of a peer's event object; what Activate, LoadModel and Prepare of a peer return are parameters.
- TensorRefcount: threads that change a count at the same time; its ++ and -- are one step each. Also events of peers whose type has a bit of the inference mask, whose data is no context; handles that are reused after their destruction.
- The OpenSSL authenticator, the GStreamer elements, discovery, the edge and distributed inference stubs, the Tizen and macOS variants: wrappers, or copies of what is modelled.
