/**
 Remote inference: the list of peers, the choice of one of them at the first Prepare, and
 the model that is kept until a peer is chosen.
 */
module RemoteInference {
  import opened Prelude
  import opened EventObject

  const ENOTSUP := 95

  type Peer = nat

  datatype Info = Info(freeMemory: nat, freeStorage: nat)

  /** What a peer says of itself; None if it cannot be asked. */
  type Infos = Peer -> Option<Info>

  /** PeerEventHandler, for this inference and the events it wants. */
  const HANDLER := Key(1, 0x50, 1)

  datatype State = State(
    peers: seq<Peer>,
    selected: Option<Peer>,
    modelFile: string,
    // the peers' own state
    handlers: map<Peer, seq<HandlerData>>,  // what this inference has registered with each peer
    loaded: map<Peer, string>,              // the model each peer has loaded
    // bookkeeping
    requested: string                       // the last model that was not empty and whose LoadModel succeeded
  )

  function Init(): State { State([], None, "", map[], map[], "") }

  function Handlers(s: State, p: Peer): seq<HandlerData> { if p in s.handlers then s.handlers[p] else [] }

  function Loaded(s: State, p: Peer): string { if p in s.loaded then s.loaded[p] else "" }

  // ---------- The choice of a peer ----------

  predicate Above(a: Info, b: Info) {
    a.freeMemory > b.freeMemory || (a.freeMemory == b.freeMemory && a.freeStorage > b.freeStorage)
  }

  const NOTHING := Info(0, 0)

  /** The place of the peer chosen among the first `n`, if any is. */
  function Best(peers: seq<Peer>, infos: Infos): Option<nat>
    ensures Best(peers, infos).Some? ==>
              Best(peers, infos).value < |peers| && infos(peers[Best(peers, infos).value]).Some?
  {
    if peers == [] then None
    else
      var n := |peers| - 1;
      var before, info := Best(peers[..n], infos), infos(peers[n]);
      var bar := if before.Some? then infos(peers[before.value]).value else NOTHING;
      if info.Some? && Above(info.value, bar) then Some(n) else before
  }

  function Chosen(peers: seq<Peer>, infos: Infos): Peer
    requires peers != []
  {
    match Best(peers, infos)
    case None => peers[0]
    case Some(i) => peers[i]
  }

  /** The peer at `i` can be read, has something free, and nobody before it has as much, nor anybody behind it more. */
  ghost predicate ArgMax(peers: seq<Peer>, infos: Infos, i: nat) {
    && i < |peers| && infos(peers[i]).Some? && Above(infos(peers[i]).value, NOTHING)
    && (forall j :: 0 <= j < |peers| && infos(peers[j]).Some? ==> !Above(infos(peers[j]).value, infos(peers[i]).value))
    && (forall j :: 0 <= j < i && infos(peers[j]).Some? ==> Above(infos(peers[i]).value, infos(peers[j]).value))
  }

  lemma {:induction false} BestIsArgMax(peers: seq<Peer>, infos: Infos)
    ensures Best(peers, infos).Some? ==> ArgMax(peers, infos, Best(peers, infos).value)
    ensures Best(peers, infos).None? ==>
              forall j :: 0 <= j < |peers| && infos(peers[j]).Some? ==> infos(peers[j]).value == NOTHING
  {
    if peers != [] {
      var n := |peers| - 1;
      BestIsArgMax(peers[..n], infos);
      forall j | 0 <= j < n ensures peers[..n][j] == peers[j] {
      }
    }
  }

  /**
   The peer chosen is the earliest with the most memory free, and of those the most storage; the first if none
   has any.
   */
  lemma ChoiceIsArgMax(peers: seq<Peer>, infos: Infos)
    requires peers != []
    ensures forall i: nat :: ArgMax(peers, infos, i) ==> Chosen(peers, infos) == peers[i]
    ensures (forall i: nat :: !ArgMax(peers, infos, i)) ==> Chosen(peers, infos) == peers[0]
    ensures (exists i: nat :: ArgMax(peers, infos, i)) <==>
            exists j :: 0 <= j < |peers| && infos(peers[j]).Some? && infos(peers[j]).value != NOTHING
  {
    BestIsArgMax(peers, infos);
    forall i: nat | ArgMax(peers, infos, i) ensures Best(peers, infos) == Some(i) {
      assert infos(peers[i]).value != NOTHING;
    }
  }

  // ---------- The operations ----------

  datatype Action =
    | AddPeer(p: Peer, activated: int)               // with what the peer's Activate returns
    | RemovePeer(p: Peer)
    | LoadModel(models: seq<string>, result: int)    // with what the selected peer's LoadModel returns
    | Prepare(infos: Infos, loading: int, result: int)  // with what LoadModel and Prepare of the chosen peer return
    | EnterHandler(p: Peer)                          // the peer calls PeerEventHandler
    | LeaveHandler(p: Peer)

  function Register(s: State, p: Peer): State { s.(handlers := s.handlers[p := AfterAdd(Handlers(s, p), HANDLER)]) }

  function Unregister(s: State, p: Peer): State {
    s.(handlers := s.handlers[p := AfterRemove(Handlers(s, p), HANDLER)])
  }

  function AddPeerResult(s: State, p: Peer, activated: int): int {
    var ret := AddResult(Handlers(s, p), HANDLER);
    if ret < 0 then ret else activated
  }

  function AddPeerStep(s: State, p: Peer, activated: int): State {
    if AddResult(Handlers(s, p), HANDLER) < 0 then s
    else if activated < 0 then Unregister(Register(s, p), p)
    else Register(s, p).(peers := s.peers + [p])
  }

  /** The place of a peer in the list, or the length. */
  function Find(peers: seq<Peer>, p: Peer): (i: nat)
    ensures i <= |peers| && p !in peers[..i] && (i < |peers| ==> peers[i] == p)
  {
    if peers == [] || peers[0] == p then 0
    else
      var i := 1 + Find(peers[1..], p);
      assert peers[..i] == [peers[0]] + peers[1..][..i - 1];
      i
  }

  function RemovePeerResult(s: State, p: Peer): int {
    if Find(s.peers, p) == |s.peers| then -ENOENT else RemoveResult(Handlers(s, p), HANDLER)
  }

  function RemovePeerStep(s: State, p: Peer): State {
    var i := Find(s.peers, p);
    if i == |s.peers| then s
    else Unregister(s, p).(selected := if s.selected == Some(p) then None else s.selected,
                           peers := s.peers[..i] + s.peers[i + 1..])
  }

  function LoadModelResult(s: State, models: seq<string>, result: int): int {
    if models == [] then -EINVAL else if |models| != 1 then -ENOTSUP else if s.selected.None? then 0 else result
  }

  function LoadModelStep(s: State, models: seq<string>, result: int): State {
    if LoadModelResult(s, models, result) < 0 then s
    else
      var model := models[0];
      var t := if model == "" then s else s.(requested := model);
      match s.selected
      case None => t.(modelFile := model)
      case Some(p) => t.(loaded := s.loaded[p := model])
  }

  function PrepareResult(s: State, loading: int, result: int): int {
    if s.peers == [] then -EINVAL
    else if s.selected.None? && s.modelFile != "" && loading < 0 then loading
    else result
  }

  function PrepareStep(s: State, infos: Infos, loading: int): State {
    if s.peers == [] || s.selected.Some? then s
    else
      var p := Chosen(s.peers, infos);
      if s.modelFile == "" then s.(selected := Some(p))
      else if loading < 0 then s
      else s.(selected := Some(p), loaded := s.loaded[p := s.modelFile], modelFile := "")
  }

  predicate Callable(hs: seq<HandlerData>) { |hs| == 1 && !hs[0].inUse }

  function EnterStep(s: State, p: Peer): State {
    var hs := Handlers(s, p);
    if !Callable(hs) then s else s.(handlers := s.handlers[p := [hs[0].(inUse := true)]])
  }

  function LeaveStep(s: State, p: Peer): State {
    var hs := Handlers(s, p);
    if |hs| != 1 || !hs[0].inUse then s
    else s.(handlers := s.handlers[p := if hs[0].isDeleted then [] else [hs[0].(inUse := false)]])
  }

  function Step(s: State, a: Action): State {
    match a
    case AddPeer(p, activated) => AddPeerStep(s, p, activated)
    case RemovePeer(p) => RemovePeerStep(s, p)
    case LoadModel(models, result) => LoadModelStep(s, models, result)
    case Prepare(infos, loading, _) => PrepareStep(s, infos, loading)
    case EnterHandler(p) => EnterStep(s, p)
    case LeaveHandler(p) => LeaveStep(s, p)
  }

  function Run(schedule: seq<Action>): State {
    if schedule == [] then Init() else Step(Run(schedule[..|schedule| - 1]), schedule[|schedule| - 1])
  }

  // ---------- Peers and handlers ----------

  /** A handler is registered, and has not been removed while it was being called. */
  predicate Live(hs: seq<HandlerData>) { hs != [] && !hs[0].isDeleted }

  /** At most our own handler; removed but still there only while it is being called. */
  predicate OwnAtMost(hs: seq<HandlerData>) {
    |hs| <= 1 && (hs != [] ==> Matches(hs[0], HANDLER) && (hs[0].isDeleted ==> hs[0].inUse))
  }

  ghost predicate InvPeers(s: State) {
    && (forall i, j :: 0 <= i < j < |s.peers| ==> s.peers[i] != s.peers[j])
    && (s.selected.Some? ==> s.selected.value in s.peers)
    && (forall p: Peer :: OwnAtMost(Handlers(s, p)))
    && (forall p: Peer :: Live(Handlers(s, p)) <==> p in s.peers)
  }

  lemma TakenWhenThere(hs: seq<HandlerData>)
    requires OwnAtMost(hs)
    ensures Taken(hs, HANDLER) <==> hs != []
  {
    if hs != [] {
      assert Overlaps(hs[0], HANDLER);
    }
  }

  /** Adding succeeds exactly if nothing is there, and leaves our live handler. */
  lemma Adding(hs: seq<HandlerData>)
    requires OwnAtMost(hs)
    ensures AddResult(hs, HANDLER) == 0 <==> hs == []
    ensures hs == [] ==> AfterAdd(hs, HANDLER) == [Registered(HANDLER)]
  {
    TakenWhenThere(hs);
  }

  /** Removing a live handler succeeds, and leaves none that is live. */
  lemma Removing(hs: seq<HandlerData>)
    requires OwnAtMost(hs)
    ensures RemoveResult(hs, HANDLER) == 0 <==> Live(hs)
    ensures OwnAtMost(AfterRemove(hs, HANDLER)) && !Live(AfterRemove(hs, HANDLER))
    ensures AfterRemove([Registered(HANDLER)], HANDLER) == []
  {
    assert [Registered(HANDLER)][..0] + [Registered(HANDLER)][1..] == [];
  }

  lemma AddPeerKeepsPeers(s: State, p: Peer, activated: int)
    requires InvPeers(s)
    ensures InvPeers(AddPeerStep(s, p, activated))
    ensures AddPeerResult(s, p, activated) < 0 ==> AddPeerStep(s, p, activated).peers == s.peers
  {
    assert OwnAtMost(Handlers(s, p));
    Adding(Handlers(s, p));
    Removing(Handlers(s, p));
    var t := AddPeerStep(s, p, activated);
    forall q: Peer ensures OwnAtMost(Handlers(t, q)) && (Live(Handlers(t, q)) <==> q in t.peers) {
      assert OwnAtMost(Handlers(s, q)) && (Live(Handlers(s, q)) <==> q in s.peers);
    }
  }

  lemma RemovePeerKeepsPeers(s: State, p: Peer)
    requires InvPeers(s)
    ensures InvPeers(RemovePeerStep(s, p))
    ensures RemovePeerResult(s, p) == 0 <==> p in s.peers
    ensures p !in RemovePeerStep(s, p).peers
  {
    assert OwnAtMost(Handlers(s, p)) && (Live(Handlers(s, p)) <==> p in s.peers);
    Removing(Handlers(s, p));
    var t, i := RemovePeerStep(s, p), Find(s.peers, p);
    if i < |s.peers| {
      forall q: Peer ensures q in t.peers <==> q in s.peers && q != p {
        if q in s.peers && q != p {
          var j :| 0 <= j < |s.peers| && s.peers[j] == q;
          assert t.peers[if j < i then j else j - 1] == q;
        }
      }
    }
    forall q: Peer ensures OwnAtMost(Handlers(t, q)) && (Live(Handlers(t, q)) <==> q in t.peers) {
      assert OwnAtMost(Handlers(s, q)) && (Live(Handlers(s, q)) <==> q in s.peers);
    }
  }

  lemma HandlerStepKeepsPeers(s: State, a: Action)
    requires InvPeers(s) && (a.EnterHandler? || a.LeaveHandler?)
    ensures InvPeers(Step(s, a))
  {
    var t := Step(s, a);
    forall q: Peer ensures OwnAtMost(Handlers(t, q)) && (Live(Handlers(t, q)) <==> q in t.peers) {
      assert OwnAtMost(Handlers(s, q)) && (Live(Handlers(s, q)) <==> q in s.peers);
    }
  }

  lemma ModelStepKeepsPeers(s: State, a: Action)
    requires InvPeers(s) && (a.LoadModel? || a.Prepare?)
    ensures InvPeers(Step(s, a))
  {
    var t := Step(s, a);
    forall q: Peer ensures Handlers(t, q) == Handlers(s, q) {
    }
  }

  /**
   In every run no peer is listed twice, the selected one is listed, and this inference has a live
   handler with exactly the listed ones, even while handlers are being called.
   */
  lemma {:induction false} PeersAndHandlers(schedule: seq<Action>)
    ensures InvPeers(Run(schedule))
  {
    if schedule != [] {
      var s, a := Run(schedule[..|schedule| - 1]), schedule[|schedule| - 1];
      PeersAndHandlers(schedule[..|schedule| - 1]);
      match a
      case AddPeer(p, activated) => AddPeerKeepsPeers(s, p, activated);
      case RemovePeer(p) => RemovePeerKeepsPeers(s, p);
      case EnterHandler(_) => HandlerStepKeepsPeers(s, a);
      case LeaveHandler(_) => HandlerStepKeepsPeers(s, a);
      case _ => ModelStepKeepsPeers(s, a);
    }
  }

  // ---------- The model ----------

  /** The requested model is kept until a peer is selected, and is then loaded on that peer. */
  predicate ModelKept(s: State) {
    match s.selected
    case None => s.modelFile == s.requested
    case Some(p) => s.modelFile == "" && (s.requested == "" || Loaded(s, p) == s.requested)
  }

  /** The step drops the requested model: the selected peer is removed, or the empty model takes its place. */
  predicate Drops(s: State, a: Action) {
    && s.requested != ""
    && ((a.RemovePeer? && s.selected == Some(a.p) && a.p in s.peers) ||
        (a.LoadModel? && a.models == [""] && LoadModelResult(s, a.models, a.result) >= 0))
  }

  lemma StepKeepsModel(s: State, a: Action)
    requires ModelKept(s) && InvPeers(s)
    ensures ModelKept(Step(s, a)) <==> !Drops(s, a)
  {
    if a.RemovePeer? {
      RemovePeerKeepsPeers(s, a.p);
      if a.p in s.peers {
        assert Find(s.peers, a.p) < |s.peers|;
      }
    }
  }

  ghost predicate NeverDrops(schedule: seq<Action>) {
    forall i :: 0 <= i < |schedule| ==> !Drops(Run(schedule[..i]), schedule[i])
  }

  lemma {:induction false} RunKeepsModel(schedule: seq<Action>)
    requires NeverDrops(schedule)
    ensures ModelKept(Run(schedule))
  {
    if schedule != [] {
      var n := |schedule| - 1;
      assert NeverDrops(schedule[..n]) by {
        forall i | 0 <= i < n ensures !Drops(Run(schedule[..n][..i]), schedule[..n][i]) {
          assert schedule[..n][..i] == schedule[..i];
        }
      }
      RunKeepsModel(schedule[..n]);
      PeersAndHandlers(schedule[..n]);
      StepKeepsModel(Run(schedule[..n]), schedule[n]);
    }
  }

  /**
   In every run that drops no model, after a Prepare that succeeds the last model requested is
   loaded on the selected peer, however many Prepares failed before.
   */
  lemma PreparedWithModel(schedule: seq<Action>, infos: Infos, loading: int, result: int)
    requires NeverDrops(schedule) && PrepareResult(Run(schedule), loading, result) >= 0
    ensures var s := Step(Run(schedule), Prepare(infos, loading, result));
            s.selected.Some? && s.selected.value in s.peers && s.modelFile == "" &&
            (s.requested != "" ==> Loaded(s, s.selected.value) == s.requested)
  {
    RunKeepsModel(schedule);
    PeersAndHandlers(schedule);
    ModelStepKeepsPeers(Run(schedule), Prepare(infos, loading, result));
    StepKeepsModel(Run(schedule), Prepare(infos, loading, result));
  }

  /**
   When the selected peer is removed and others are left, the next Prepare selects one of them and
   reports success with whatever model that peer happens to have.
   */
  lemma RemovalDropsModel(s: State, p: Peer, infos: Infos)
    requires InvPeers(s) && ModelKept(s) && s.selected == Some(p) && |s.peers| > 1
    ensures var t := Step(Step(s, RemovePeer(p)), Prepare(infos, 0, 0));
            && PrepareResult(Step(s, RemovePeer(p)), 0, 0) == 0
            && t.selected.Some? && t.selected.value != p && t.selected.value in s.peers
            && Loaded(t, t.selected.value) == Loaded(s, t.selected.value)
  {
    RemovePeerKeepsPeers(s, p);
    var r := Step(s, RemovePeer(p));
    assert |r.peers| == |s.peers| - 1;
    assert Chosen(r.peers, infos) in r.peers;
  }

  // ---------- What the operations do ----------

  /** Everything but the peers' models, the selection and the model kept is as it was. */
  ghost predicate SameList(s: State, t: State) {
    t.peers == s.peers && t.handlers == s.handlers && t.requested == s.requested
  }

  /**
   The first Prepare that gets its model loaded, if there is one, selects the peer at `i` if that is the arg max, and
   the first peer if none is; the model kept is then that peer's.  It does so even if the peer's own Prepare
   fails.  A Prepare that does not get it loaded selects none.
   */
  lemma PrepareSelects(s: State, infos: Infos, loading: int, result: int, i: nat)
    requires s.selected.None? && s.peers != []
    requires ArgMax(s.peers, infos, i) || (i == 0 && forall j: nat :: !ArgMax(s.peers, infos, j))
    ensures var t, p := Step(s, Prepare(infos, loading, result)), s.peers[i];
            if s.modelFile != "" && loading < 0 then
              t == s && PrepareResult(s, loading, result) == loading
            else
              && t.selected == Some(p) && t.modelFile == "" && SameList(s, t)
              && Loaded(t, p) == (if s.modelFile == "" then Loaded(s, p) else s.modelFile)
              && (forall q :: q != p ==> Loaded(t, q) == Loaded(s, q))
              && PrepareResult(s, loading, result) == result
  {
    ChoiceIsArgMax(s.peers, infos);
  }

  /** Without a peer a Prepare fails, and once one is selected it is only asked to prepare itself again. */
  lemma PrepareSelectsOnce(s: State, infos: Infos, loading: int, result: int)
    requires s.peers == [] || s.selected.Some?
    ensures Step(s, Prepare(infos, loading, result)) == s
    ensures PrepareResult(s, loading, result) == if s.peers == [] then -EINVAL else result
  {
  }

  /** One model is kept until a peer is selected, or loaded on the one that is; no other number of them is taken. */
  lemma LoadModelKeepsOrLoads(s: State, models: seq<string>, result: int)
    ensures var t, ret := Step(s, LoadModel(models, result)), LoadModelResult(s, models, result);
            && (models == [] ==> ret == -EINVAL && t == s)
            && (|models| > 1 ==> ret == -ENOTSUP && t == s)
            && (|models| == 1 && s.selected.None? ==> ret == 0 && t.modelFile == models[0] && t.loaded == s.loaded)
            && (|models| == 1 && s.selected.Some? ==>
                  && ret == result && t.modelFile == s.modelFile
                  && t.loaded == if result < 0 then s.loaded else s.loaded[s.selected.value := models[0]])
            && t.peers == s.peers && t.handlers == s.handlers && t.selected == s.selected
            && t.requested == if ret >= 0 && models[0] != "" then models[0] else s.requested
  {
  }

  /** A peer is appended unless it is listed, its removed handler is still being called, or it cannot be activated. */
  lemma AddPeerAppends(s: State, p: Peer, activated: int)
    requires InvPeers(s)
    ensures var t, ret := Step(s, AddPeer(p, activated)), AddPeerResult(s, p, activated);
            && (p in s.peers ==> ret == -EALREADY)
            && (Handlers(s, p) != [] ==> ret == -EALREADY && t == s)
            && (Handlers(s, p) == [] ==>
                  && ret == activated
                  && t.peers == (if activated < 0 then s.peers else s.peers + [p])
                  && Handlers(t, p) == (if activated < 0 then [] else [Registered(HANDLER)]))
            && (forall q :: q != p ==> Handlers(t, q) == Handlers(s, q))
            && t.selected == s.selected && t.modelFile == s.modelFile
            && t.loaded == s.loaded && t.requested == s.requested
  {
    assert OwnAtMost(Handlers(s, p)) && (Live(Handlers(s, p)) <==> p in s.peers);
    Adding(Handlers(s, p));
    Removing(Handlers(s, p));
  }

  /** A peer is taken out of the list, the others stay in their order; only if it was selected none is then. */
  lemma RemovePeerTakesOut(s: State, left: seq<Peer>, p: Peer, right: seq<Peer>)
    requires InvPeers(s) && s.peers == left + [p] + right
    ensures var t := Step(s, RemovePeer(p));
            && RemovePeerResult(s, p) == 0
            && t.peers == left + right
            && t.selected == (if s.selected == Some(p) then None else s.selected)
            && !Live(Handlers(t, p)) && (forall q :: q != p ==> Handlers(t, q) == Handlers(s, q))
            && t.modelFile == s.modelFile && t.loaded == s.loaded && t.requested == s.requested
  {
    assert s.peers[|left|] == p;
    RemovePeerKeepsPeers(s, p);
    assert Find(s.peers, p) == |left|;
  }

  lemma RemovePeerNotListed(s: State, p: Peer)
    requires p !in s.peers
    ensures Step(s, RemovePeer(p)) == s && RemovePeerResult(s, p) == -ENOENT
  {
  }

  /**
   The handler of a peer that is removed while it is being called stays until the call returns, and until
   then the peer cannot be added again.
   */
  lemma RemovedWhileCalled(s: State, p: Peer, activated: int)
    requires InvPeers(s) && p in s.peers && !Handlers(s, p)[0].inUse
    ensures var t := Step(Step(s, EnterHandler(p)), RemovePeer(p));
            && Live(Handlers(Step(s, EnterHandler(p)), p)) && p !in t.peers
            && AddPeerResult(t, p, activated) == -EALREADY
            && Handlers(Step(t, LeaveHandler(p)), p) == []
            && AddPeerResult(Step(t, LeaveHandler(p)), p, activated) == activated
  {
    assert OwnAtMost(Handlers(s, p)) && Live(Handlers(s, p));
    var e := Step(s, EnterHandler(p));
    HandlerStepKeepsPeers(s, EnterHandler(p));
    RemovePeerKeepsPeers(e, p);
    var t := Step(e, RemovePeer(p));
    assert First(Handlers(e, p), HANDLER) == 0;
    Adding(Handlers(t, p));
    Adding([]);
  }

  /** A call that is not interfered with leaves everything as it was. */
  lemma CalledAndBack(s: State, p: Peer)
    requires InvPeers(s) && p in s.peers && !Handlers(s, p)[0].inUse
    ensures var t := Step(Step(s, EnterHandler(p)), LeaveHandler(p));
            t.handlers == s.handlers && t.peers == s.peers && t.selected == s.selected
    ensures Handlers(Step(s, EnterHandler(p)), p)[0].inUse
  {
    assert OwnAtMost(Handlers(s, p)) && Live(Handlers(s, p));
    var t := Step(Step(s, EnterHandler(p)), LeaveHandler(p));
    assert Handlers(t, p) == Handlers(s, p);
  }

  // ---------- The remote inference object ----------

  class Remote {
    var peerVector: seq<Peer>
    var peer: Option<Peer>
    var modelFile: string
    // the state of the peers it calls
    var handlers: map<Peer, seq<HandlerData>>
    ghost var loaded: map<Peer, string>
    ghost var requested: string

    ghost function View(): State
      reads this
    {
      State(peerVector, peer, modelFile, handlers, loaded, requested)
    }

    constructor ()
      ensures View() == Init()
    {
      peerVector, peer, modelFile, handlers, loaded, requested := [], None, "", map[], map[], "";
    }

    method AddHandlerAt(p: Peer) returns (ret: int)
      modifies this`handlers
      ensures ret == old(AddResult(Handlers(View(), p), HANDLER)) && View() == old(Register(View(), p))
    {
      var hs := if p in handlers then handlers[p] else [];
      ret := AddResult(hs, HANDLER);
      handlers := handlers[p := AfterAdd(hs, HANDLER)];
    }

    method RemoveHandlerAt(p: Peer) returns (ret: int)
      modifies this`handlers
      ensures ret == old(RemoveResult(Handlers(View(), p), HANDLER)) && View() == old(Unregister(View(), p))
    {
      var hs := if p in handlers then handlers[p] else [];
      ret := RemoveResult(hs, HANDLER);
      handlers := handlers[p := AfterRemove(hs, HANDLER)];
    }

    /** `activated` is what the peer's Activate returns. */
    method AddPeerCall(p: Peer, activated: int) returns (ret: int)
      requires InvPeers(View())
      modifies this
      ensures ret == old(AddPeerResult(View(), p, activated))
      ensures View() == old(Step(View(), AddPeer(p, activated)))
    {
      ghost var was := View();
      assert OwnAtMost(Handlers(was, p));
      Adding(Handlers(was, p));
      ret := AddHandlerAt(p);
      if ret < 0 {
        return;
      }
      if activated < 0 {
        var _ := RemoveHandlerAt(p);
        return activated;
      }
      peerVector := peerVector + [p];
      ret := activated;
    }

    method RemovePeerCall(p: Peer) returns (ret: int)
      modifies this
      ensures ret == old(RemovePeerResult(View(), p))
      ensures View() == old(Step(View(), RemovePeer(p)))
    {
      var i := Find(peerVector, p);
      if i == |peerVector| {
        return -ENOENT;
      }
      ret := RemoveHandlerAt(p);
      if peer == Some(p) {
        peer := None;
      }
      peerVector := peerVector[..i] + peerVector[i + 1..];
    }

    /** `result` is what the selected peer's LoadModel would return. */
    method LoadModelCall(models: seq<string>, result: int) returns (ret: int)
      modifies this
      ensures ret == old(LoadModelResult(View(), models, result))
      ensures View() == old(Step(View(), LoadModel(models, result)))
    {
      if |models| <= 0 {
        return -EINVAL;
      }
      if |models| != 1 {
        return -ENOTSUP;
      }
      ret := 0;
      if peer.None? {
        modelFile := models[0];
      } else {
        ret := result;
        if ret >= 0 {
          loaded := loaded[peer.value := models[0]];
        }
      }
      if ret >= 0 && models[0] != "" {
        requested := models[0];
      }
    }

    /** The selection loop of Prepare. */
    method SelectPeer(infos: Infos) returns (selected: Peer)
      requires peerVector != []
      ensures selected == Chosen(peerVector, infos)
    {
      var freeMemory, freeStorage := 0, 0;
      var best: Option<Peer> := None;
      for i := 0 to |peerVector|
        invariant Best(peerVector[..i], infos).None? ==> best.None? && freeMemory == 0 && freeStorage == 0
        invariant Best(peerVector[..i], infos).Some? ==>
                    var b := peerVector[Best(peerVector[..i], infos).value];
                    best == Some(b) && infos(b) == Some(Info(freeMemory, freeStorage))
      {
        assert peerVector[..i + 1][..i] == peerVector[..i];
        var info := infos(peerVector[i]);
        if info.None? {
          continue;
        }
        if info.value.freeMemory > freeMemory {
          best, freeMemory, freeStorage := Some(peerVector[i]), info.value.freeMemory, info.value.freeStorage;
        } else if info.value.freeMemory == freeMemory && info.value.freeStorage > freeStorage {
          best, freeMemory, freeStorage := Some(peerVector[i]), info.value.freeMemory, info.value.freeStorage;
        }
      }
      assert peerVector[..|peerVector|] == peerVector;
      selected := if best.None? then peerVector[0] else best.value;
    }

    /** `loading` and `result` are what LoadModel and Prepare of the chosen peer return. */
    method PrepareCall(infos: Infos, loading: int, result: int) returns (ret: int)
      modifies this
      ensures ret == old(PrepareResult(View(), loading, result))
      ensures View() == old(Step(View(), Prepare(infos, loading, result)))
      ensures old(peer.None?) && peer.Some? ==>
                forall i: nat :: ArgMax(peerVector, infos, i) ==> peer == Some(peerVector[i])
    {
      if peerVector == [] {
        return -EINVAL;
      }
      if peer.Some? {
        return result;
      }
      var selected := SelectPeer(infos);
      ChoiceIsArgMax(peerVector, infos);
      if modelFile != "" {
        if loading < 0 {
          return loading;
        }
        loaded := loaded[selected := modelFile];
        modelFile := "";
      }
      peer := Some(selected);
      ret := result;
    }
  }
}
